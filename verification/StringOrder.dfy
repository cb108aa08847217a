/** The order of strings, and lists kept strictly sorted by it: what printing an object's keys in order
    rests on. */
module StringOrder {

  /** Lexicographic, by code point: the order of Rust's `str`. */
  predicate Less(a: string, b: string) {
    if b == [] then false
    else if a == [] then true
    else a[0] < b[0] || (a[0] == b[0] && Less(a[1..], b[1..]))
  }

  lemma {:induction false} LessIsStrict(a: string)
    ensures !Less(a, a)
  {
    if a != [] {
      LessIsStrict(a[1..]);
    }
  }

  lemma {:induction false} LessIsTotal(a: string, b: string)
    ensures a == b || Less(a, b) || Less(b, a)
  {
    if a != [] && b != [] && a[0] == b[0] {
      LessIsTotal(a[1..], b[1..]);
      assert a == [a[0]] + a[1..] && b == [b[0]] + b[1..];
    }
  }

  lemma {:induction false} LessIsTransitive(a: string, b: string, c: string)
    requires Less(a, b) && Less(b, c)
    ensures Less(a, c)
  {
    if a != [] && a[0] == b[0] == c[0] {
      LessIsTransitive(a[1..], b[1..], c[1..]);
    }
  }

  ghost predicate Sorted(s: seq<string>) {
    forall i, j :: 0 <= i < j < |s| ==> Less(s[i], s[j])
  }

  /** A set of strings has only one sorted list. */
  lemma {:induction false} SortedIsUnique(s: seq<string>, t: seq<string>)
    requires Sorted(s) && Sorted(t) && forall x :: x in s <==> x in t
    ensures s == t
  {
    hide Less;
    if s != [] {
      assert s[0] in t;
      SortedHead(s, t);
      SortedTail(s);
      SortedTail(t);
      forall x ensures x in s[1..] <==> x in t[1..] {
        assert x in s <==> x == s[0] || x in s[1..];
        assert x in t <==> x == t[0] || x in t[1..];
      }
      SortedIsUnique(s[1..], t[1..]);
      assert s == [s[0]] + s[1..] && t == [t[0]] + t[1..];
    } else {
      HasMember(t);
    }
  }

  lemma HasMember<T>(t: seq<T>)
    ensures t != [] ==> exists x :: x in t
  {
    if t != [] {
      assert t[0] in t;
    }
  }

  lemma SortedHead(s: seq<string>, t: seq<string>)
    requires Sorted(s) && Sorted(t) && s != [] && t != [] && s[0] in t && t[0] in s
    ensures s[0] == t[0]
  {
    hide Less;
    var i :| 0 <= i < |t| && t[i] == s[0];
    var j :| 0 <= j < |s| && s[j] == t[0];
    if i > 0 && j > 0 {
      LessIsTransitive(s[0], t[0], s[0]);
      LessIsStrict(s[0]);
    }
  }

  lemma SortedTail(s: seq<string>)
    requires Sorted(s) && s != []
    ensures Sorted(s[1..]) && s[0] !in s[1..]
  {
    hide Less;
    forall i | 0 < i < |s| ensures s[i] != s[0] {
      LessIsStrict(s[0]);
    }
  }

  // -------------------------------------------------------------- keyed lists

  datatype Keyed<+T> = Keyed(key: string, value: T)

  function InsertKeyed<T(!new)>(f: Keyed<T>, sorted: seq<Keyed<T>>): (r: seq<Keyed<T>>)
    ensures |r| == |sorted| + 1 && forall g :: g in r <==> g == f || g in sorted
  {
    if sorted == [] || Less(f.key, sorted[0].key) then [f] + sorted
    else [sorted[0]] + InsertKeyed(f, sorted[1..])
  }

  function SortKeyed<T(!new)>(fields: seq<Keyed<T>>): (r: seq<Keyed<T>>)
    ensures |r| == |fields| && forall g :: g in r <==> g in fields
  {
    if fields == [] then [] else InsertKeyed(fields[0], SortKeyed(fields[1..]))
  }

  function Keys<T>(fields: seq<Keyed<T>>): (r: seq<string>)
    ensures |r| == |fields| && forall i :: 0 <= i < |fields| ==> r[i] == fields[i].key
  {
    seq(|fields|, i requires 0 <= i < |fields| => fields[i].key)
  }

  /** Strictly sorted keys, told on the pairs. */
  ghost predicate KeysSorted<T>(s: seq<Keyed<T>>) {
    forall i, j :: 0 <= i < j < |s| ==> Less(s[i].key, s[j].key)
  }

  lemma SortedKeys<T>(s: seq<Keyed<T>>)
    ensures KeysSorted(s) <==> Sorted(Keys(s))
  {
    hide Less;
    if Sorted(Keys(s)) {
      forall i, j | 0 <= i < j < |s| ensures Less(s[i].key, s[j].key) {
        assert Less(Keys(s)[i], Keys(s)[j]);
      }
    }
  }

  lemma PutFirst<T(!new)>(f: Keyed<T>, s: seq<Keyed<T>>)
    requires KeysSorted(s) && forall g :: g in s ==> Less(f.key, g.key)
    ensures KeysSorted([f] + s)
  {
    hide Less;
    forall i | 0 <= i < |s| ensures Less(f.key, s[i].key) {
      assert s[i] in s;
    }
  }

  lemma FirstIsLeast<T>(s: seq<Keyed<T>>, g: Keyed<T>)
    requires s != [] && KeysSorted(s) && g in s[1..]
    ensures Less(s[0].key, g.key)
  {
    hide Less;
    var i :| 0 <= i < |s[1..]| && s[1..][i] == g;
    assert s[i + 1] == g;
  }

  lemma {:induction false} InsertKeepsSorted<T(!new)>(f: Keyed<T>, sorted: seq<Keyed<T>>)
    requires KeysSorted(sorted) && forall g :: g in sorted ==> g.key != f.key
    ensures KeysSorted(InsertKeyed(f, sorted))
  {
    hide Less;
    if sorted != [] {
      var first, rest := sorted[0], sorted[1..];
      if Less(f.key, first.key) {
        forall g | g in sorted ensures Less(f.key, g.key) {
          if g != first {
            assert g in rest;
            FirstIsLeast(sorted, g);
            LessIsTransitive(f.key, first.key, g.key);
          }
        }
        PutFirst(f, sorted);
      } else {
        assert first in sorted;
        LessIsTotal(f.key, first.key);
        InsertKeepsSorted(f, rest);
        forall g | g in InsertKeyed(f, rest) ensures Less(first.key, g.key) {
          if g != f {
            FirstIsLeast(sorted, g);
          }
        }
        PutFirst(first, InsertKeyed(f, rest));
      }
    }
  }

  ghost predicate DistinctKeys<T>(fields: seq<Keyed<T>>) {
    forall i, j :: 0 <= i < j < |fields| ==> fields[i].key != fields[j].key
  }

  lemma {:induction false} SortIsSorted<T(!new)>(fields: seq<Keyed<T>>)
    requires DistinctKeys(fields)
    ensures Sorted(Keys(SortKeyed(fields)))
  {
    hide Less;
    if fields != [] {
      SortIsSorted(fields[1..]);
      forall g | g in SortKeyed(fields[1..]) ensures g.key != fields[0].key {
        var i :| 0 <= i < |fields[1..]| && fields[1..][i] == g;
        assert fields[i + 1] == g;
      }
      SortedKeys(SortKeyed(fields[1..]));
      InsertKeepsSorted(fields[0], SortKeyed(fields[1..]));
    }
    SortedKeys(SortKeyed(fields));
  }
}
