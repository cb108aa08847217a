/** What a prompt file shows of the command it was rendered from, told word for word: its front matter line by
    line, and its body. */
module PromptShows {
  import opened Collections
  import opened Substrings
  import opened TextLines
  import opened YamlLines
  import opened CommandFile

  ghost predicate OnlySpaces(s: string) { forall i :: 0 <= i < |s| ==> IsSpace(s[i]) }

  /** The line is `invokable:` and whatever follows, at any indentation. */
  ghost predicate SaysInvokable(l: string) {
    exists n: nat :: At(l, "invokable:", n) && OnlySpaces(l[..n])
  }

  // ------------------------------------------------------------------ the body

  lemma AtShifted(s: string, k: nat)
    requires s != []
    ensures At(s[1..], "$ARGUMENTS", k) <==> At(s, "$ARGUMENTS", k + 1)
  {
    if k + 10 <= |s| - 1 { assert s[1..][k..k + 10] == s[k + 1..k + 1 + 10]; }
  }

  lemma NotHere(s: string)
    requires !At(s, "$ARGUMENTS", 0) && s != []
    ensures Substitute(s) == [s[0]] + Substitute(s[1..])
  {
    if |s| >= 10 { assert s[0..10] == s[..10]; }
  }

  lemma RightHere(b: string)
    ensures Substitute("$ARGUMENTS" + b) == "{{{ input }}}" + Substitute(b)
  {
    var s := "$ARGUMENTS" + b;
    assert s[..10] == "$ARGUMENTS" && s[10..] == b;
  }

  /** The first placeholder becomes the other format's, what stands before it stays, and so on behind it. (A text
      without placeholders stays as it is, `NothingToSubstitute`.) */
  lemma {:induction false} FirstIsReplaced(a: string, b: string)
    requires forall k: nat :: k < |a| ==> !At(a + ("$ARGUMENTS" + b), "$ARGUMENTS", k)
    ensures Substitute(a + ("$ARGUMENTS" + b)) == a + ("{{{ input }}}" + Substitute(b))
    decreases |a|
  {
    hide Substitute, At;
    var s := a + ("$ARGUMENTS" + b);
    if a == [] {
      RightHere(b);
      assert s == "$ARGUMENTS" + b;
      assert a + ("{{{ input }}}" + Substitute(b)) == "{{{ input }}}" + Substitute(b);
    } else {
      assert s[1..] == a[1..] + ("$ARGUMENTS" + b);
      forall k: nat | k < |a[1..]| ensures !At(s[1..], "$ARGUMENTS", k) { AtShifted(s, k); }
      FirstIsReplaced(a[1..], b);
      assert !At(s, "$ARGUMENTS", 0);
      NotHere(s);
      FrontBack(a, "{{{ input }}}" + Substitute(b));
    }
  }

  lemma FrontBack(a: string, r: string)
    requires a != []
    ensures [a[0]] + (a[1..] + r) == a + r
  {
  }

  // -------------------------------------------------------------- the preamble

  lemma {:induction false} StartCutsSpaces(l: string)
    ensures |TrimStart(l)| <= |l| && TrimStart(l) == l[|l| - |TrimStart(l)|..] && OnlySpaces(l[..|l| - |TrimStart(l)|])
    ensures TrimStart(l) != [] ==> !IsSpace(TrimStart(l)[0])
    decreases |l|
  {
    hide IsSpace;
    if l != [] && IsSpace(l[0]) {
      StartCutsSpaces(l[1..]);
      var n := |l| - |TrimStart(l)|;
      assert l[1..][n - 1..] == l[n..];
      forall i | 0 <= i < n ensures IsSpace(l[..n][i]) {
        if i > 0 { assert l[1..][..n - 1][i - 1] == l[i]; }
      }
    }
  }

  /** A line is blank exactly when it holds white space only. */
  lemma BlankMeans(l: string)
    ensures Trim(l) == "" <==> OnlySpaces(l)
  {
    hide IsSpace, TrimStart, TrimEnd;
    StartCutsSpaces(l);
    var t := TrimStart(l);
    var n := |l| - |t|;
    TrimEndIsPrefix(t);
    if t != [] {
      assert t[0] == l[n];
      TrimEndKeeps(t, 0);
    } else {
      assert l[..n] == l;
    }
  }

  lemma InvokableMeans(l: string)
    ensures Invokable(l) <==> SaysInvokable(l)
  {
    hide IsSpace, TrimStart;
    StartCutsSpaces(l);
    var n := |l| - |TrimStart(l)|;
    if Invokable(l) {
      assert l[n..n + 10] == TrimStart(l)[..10];
      assert At(l, "invokable:", n);
    }
    if SaysInvokable(l) {
      var m: nat :| At(l, "invokable:", m) && OnlySpaces(l[..m]);
      SpacesEnd(l, m, n);
      assert TrimStart(l)[..10] == l[n..n + 10];
    }
  }

  /** Leading white space ends where the first other character stands. */
  lemma SpacesEnd(l: string, m: nat, n: nat)
    requires m < |l| && n <= |l| && OnlySpaces(l[..m]) && OnlySpaces(l[..n]) && l[m..] != [] && At(l, "invokable:", m)
    requires n < |l| ==> !IsSpace(l[n])
    ensures m == n
  {
    hide IsSpace;
    assert l[m] == l[m..m + 10][0] == 'i';
    LetterIsNoSpace();
    FrontSpaces(l, m);
    FrontSpaces(l, n);
  }

  lemma FrontSpaces(l: string, n: nat)
    requires n <= |l| && OnlySpaces(l[..n])
    ensures forall i :: 0 <= i < n ==> IsSpace(l[i])
  {
    hide IsSpace;
    forall i | 0 <= i < n ensures IsSpace(l[i]) { assert l[..n][i] == l[i]; }
  }

  lemma LetterIsNoSpace()
    ensures !IsSpace('i')
  {
  }

  /** `kept` is what is left of `all` when exactly the `gone` ones are dropped; `at` tells where each stood. */
  ghost predicate Left<T(!new)>(all: seq<T>, gone: T -> bool, kept: seq<T>, at: seq<nat>) {
    && |at| == |kept|
    && (forall j :: 0 <= j < |at| ==> at[j] < |all| && kept[j] == all[at[j]])
    && (forall i, j :: 0 <= i < j < |at| ==> at[i] < at[j])
    && (forall i :: 0 <= i < |all| ==> (i in at <==> !gone(all[i])))
  }

  lemma OneMore<T(!new)>(all: seq<T>, gone: T -> bool, kept: seq<T>, at: seq<nat>, x: T)
    requires Left(all, gone, kept, at)
    ensures if gone(x) then Left(all + [x], gone, kept, at) else Left(all + [x], gone, kept + [x], at + [|all|])
  {
    if !gone(x) {
      forall i | 0 <= i < |all + [x]| ensures i in at + [|all|] <==> !gone((all + [x])[i]) {
        assert i in at + [|all|] <==> i in at || i == |all|;
      }
    } else {
      assert |all| !in at;
    }
  }

  lemma {:induction false} NonBlankStand(lines: seq<string>, gone: string -> bool) returns (at: seq<nat>)
    requires forall l :: gone(l) <==> OnlySpaces(l)
    ensures Left(lines, gone, NonBlank(lines), at)
    decreases |lines|
  {
    hide Trim, OnlySpaces, Left;
    if lines == [] {
      at := [];
      NothingKept();
      NothingLeft(gone);
    } else {
      var n := |lines| - 1;
      var front := NonBlankStand(lines[..n], gone);
      BlankMeans(lines[n]);
      OneMore(lines[..n], gone, NonBlank(lines[..n]), front, lines[n]);
      assert lines[..n] + [lines[n]] == lines;
      assert NonBlank(lines[..n]) + [] == NonBlank(lines[..n]);
      at := if gone(lines[n]) then front else front + [n];
    }
  }

  lemma NothingLeft<T(!new)>(gone: T -> bool)
    ensures Left([], gone, [], [])
  {
  }

  /** The whole prompt file: the non-blank lines of the front matter in their order, `invokable: true` behind them
      exactly when none of them says `invokable:` already, and the substituted body below the closing fence. */
  lemma PromptShows(p: Parsed) returns (kept: seq<string>, at: seq<nat>)
    ensures Left(if p.frontmatter.Some? then Lines(p.frontmatter.value) else [], l => OnlySpaces(l), kept, at)
    ensures PromptText(p) ==
      "---\n" + (Joined(if exists l :: l in kept && SaysInvokable(l) then kept else kept + ["invokable: true"])
      + ("\n---\n" + Substitute(p.body)))
  {
    hide NonBlank, Lines, Joined, Substitute, Invokable, SaysInvokable, OnlySpaces, Left;
    var lines := if p.frontmatter.Some? then Lines(p.frontmatter.value) else [];
    at := NonBlankStand(lines, l => OnlySpaces(l));
    kept := NonBlank(lines);
    if p.frontmatter.None? { NothingKept(); }
    forall l ensures Invokable(l) <==> SaysInvokable(l) { InvokableMeans(l); }
    assert SomeInvokable(kept) <==> exists l :: l in kept && SaysInvokable(l);
    assert INVOKABLE + " true" == "invokable: true";
    var j := Joined(Preamble(p.frontmatter));
    assert j + "\n" + (OPEN + Substitute(p.body)) == j + (("\n" + OPEN) + Substitute(p.body));
    assert "\n" + OPEN == "\n---\n";
  }

  lemma NothingKept()
    ensures NonBlank([]) == []
  {
  }
}
