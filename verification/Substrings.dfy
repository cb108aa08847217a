/** Where one text occurs in another, and how that meets line feeds: what the shell blocks and the command
    files rest on. */
module Substrings {
  import opened Collections

  predicate At(t: string, p: string, k: nat) { k + |p| <= |t| && t[k..k + |p|] == p }

  ghost predicate Has(t: string, p: string) { exists k: nat :: At(t, p, k) }

  /** The first place `p` occurs in `t`. */
  function Search(t: string, p: string): (r: Option<nat>)
    ensures r.Some? ==> At(t, p, r.value) && forall k :: 0 <= k < r.value ==> !At(t, p, k)
    ensures r.None? <==> !Has(t, p)
  {
    SearchFrom(t, p, 0)
  }

  function SearchFrom(t: string, p: string, i: nat): (r: Option<nat>)
    requires forall k :: 0 <= k < i ==> !At(t, p, k)
    ensures r.Some? ==> At(t, p, r.value) && forall k :: 0 <= k < r.value ==> !At(t, p, k)
    ensures r.None? <==> !Has(t, p)
    decreases |t| + 1 - i
  {
    if i > |t| then None else if At(t, p, i) then Some(i) else SearchFrom(t, p, i + 1)
  }

  lemma SearchIs(t: string, p: string, i: nat)
    requires At(t, p, i) && forall k :: 0 <= k < i ==> !At(t, p, k)
    ensures Search(t, p) == Some(i)
  {
    assert Has(t, p);
    var j := Search(t, p).value;
    assert At(t, p, j);
  }

  lemma MatchedChar(t: string, p: string, k: nat, i: nat)
    requires At(t, p, k) && k <= i < k + |p|
    ensures t[i] in p
  {
    assert t[i] == t[k..k + |p|][i - k];
  }

  /** A pattern without line feed occurs in the line before or in the text after one, never across it. */
  lemma AcrossLineFeed(a: string, b: string, p: string, k: nat)
    requires '\n' !in p && p != []
    ensures At(a + ['\n'] + b, p, k) <==> At(a, p, k) || (k > |a| && At(b, p, k - |a| - 1))
  {
    var t := a + ['\n'] + b;
    if k + |p| <= |t| {
      if k + |p| <= |a| {
        assert t[k..k + |p|] == a[k..k + |p|];
      } else if k <= |a| {
        assert t[|a|] == '\n';
        if At(t, p, k) {
          MatchedChar(t, p, k, |a|);
        }
      } else {
        assert t[k..k + |p|] == b[k - |a| - 1..k - |a| - 1 + |p|];
      }
    }
  }

  lemma LineFeedSplits(a: string, b: string, p: string)
    requires '\n' !in p && p != []
    ensures Has(a + ['\n'] + b, p) <==> Has(a, p) || Has(b, p)
    ensures Search(a + ['\n'] + b, p) ==
      if Has(a, p) then Search(a, p) else if Has(b, p) then Some(|a| + 1 + Search(b, p).value) else None
  {
    hide At;
    var t := a + ['\n'] + b;
    forall k: nat ensures At(t, p, k) <==> At(a, p, k) || (k > |a| && At(b, p, k - |a| - 1)) {
      AcrossLineFeed(a, b, p, k);
    }
    if Has(a, p) {
      SearchIs(t, p, Search(a, p).value) by {
        forall k | 0 <= k < Search(a, p).value ensures !At(t, p, k) {
          AtIsInside(a, p, Search(a, p).value);
        }
      }
    } else if Has(b, p) {
      var j := Search(b, p).value;
      assert At(t, p, |a| + 1 + j) by { assert At(b, p, (|a| + 1 + j) - |a| - 1); }
      SearchIs(t, p, |a| + 1 + j);
    }
  }

  lemma AtIsInside(t: string, p: string, k: nat)
    requires At(t, p, k)
    ensures k <= |t|
  {
  }

  lemma WholeOccurs(p: string)
    ensures At(p, p, 0) && Has(p, p)
  {
    assert p[0..|p|] == p;
    assert At(p, p, 0);
  }

  lemma EmptyHasNothing(p: string)
    requires p != []
    ensures !Has([], p)
  {
  }
}
