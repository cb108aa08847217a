/** The critical path, and every dependency path, of a loaded registry. */
module GraphAnalysis {
  import opened Collections
  import opened Registry

  // -------------------------------------------------------- critical path

  /** No chain that starts at `id` and follows `requires` has more than `d` components. */
  ghost predicate NoLongerChain(m: Graph, id: Id, d: nat) {
    forall p :: Chain(m, p) && p[0] == id && p[|p| - 1] in m ==> |p| <= d
  }

  /** The table after some ids: depths, and for each the predecessor its depth comes from. */
  ghost predicate DepthsRight(m: Graph, done: seq<Id>, dist: map<Id, nat>, pred: map<Id, Option<Id>>) {
    && (forall k :: k in done ==> k in m && k in dist && k in pred)
    && (forall k :: k in done ==> dist[k] >= 1 && NoLongerChain(m, k, dist[k]))
    && (forall k :: k in done ==> PredRight(m, done, dist, pred, k))
  }

  ghost predicate PredRight(m: Graph, done: seq<Id>, dist: map<Id, nat>, pred: map<Id, Option<Id>>, k: Id)
    requires k in m && k in dist && k in pred && (forall x :: x in done ==> x in dist)
  {
    match pred[k]
    case None => dist[k] == 1 && m[k].needs == []
    case Some(d) => d in m[k].needs && d in done && dist[k] == dist[d] + 1
  }

  /** The depth of one component from those of its requirements. */
  method Deepest(m: Graph, done: seq<Id>, dist: map<Id, nat>, id: Id) returns (d: nat, p: Option<Id>)
    requires id in m && forall r :: r in m[id].needs ==> r in done
    requires forall k :: k in done ==> k in dist && dist[k] >= 1
    ensures d >= 1 && (p == None <==> m[id].needs == []) && (p == None ==> d == 1)
    ensures p.Some? ==> p.value in m[id].needs && p.value in done && d == dist[p.value] + 1
    ensures forall r :: r in m[id].needs ==> dist[r] + 1 <= d
  {
    var needs := m[id].needs;
    d, p := 1, None;
    for i := 0 to |needs|
      invariant d >= 1 && (p == None <==> i == 0) && (p == None ==> d == 1)
      invariant p.Some? ==> p.value in needs && p.value in done && d == dist[p.value] + 1
      invariant forall j :: 0 <= j < i ==> dist[needs[j]] + 1 <= d
    {
      assert needs[i] in needs;
      var dd := (if needs[i] in dist then dist[needs[i]] else 1) + 1;
      if dd > d {
        d, p := dd, Some(needs[i]);
      }
    }
  }

  lemma DepthIsLongest(m: Graph, done: seq<Id>, dist: map<Id, nat>, pred: map<Id, Option<Id>>, id: Id, d: nat)
    requires DepthsRight(m, done, dist, pred) && id in m && d >= 1
    requires forall r :: r in m[id].needs ==> r in done && dist[r] + 1 <= d
    ensures NoLongerChain(m, id, d)
  {
    forall p | Chain(m, p) && p[0] == id && p[|p| - 1] in m ensures |p| <= d {
      if |p| >= 2 {
        assert p[1] in m[id].needs;
        assert Chain(m, p[1..]) && p[1..][0] == p[1] && p[1..][|p| - 2] == p[|p| - 1];
        assert NoLongerChain(m, p[1], dist[p[1]]);
      }
    }
  }

  lemma DepthsGrow(m: Graph, done: seq<Id>, dist: map<Id, nat>, pred: map<Id, Option<Id>>, id: Id, d: nat, p: Option<Id>)
    requires DepthsRight(m, done, dist, pred) && id in m && id !in done && d >= 1 && NoLongerChain(m, id, d)
    requires match p case None => d == 1 && m[id].needs == []
                     case Some(r) => r in m[id].needs && r in done && d == dist[r] + 1
    ensures DepthsRight(m, done + [id], dist[id := d], pred[id := p])
  {
    hide NoLongerChain;
    var done', dist', pred' := done + [id], dist[id := d], pred[id := p];
    forall k | k in done' ensures k in m && k in dist' && k in pred' && dist'[k] >= 1 && NoLongerChain(m, k, dist'[k]) {
    }
    forall k | k in done' ensures PredRight(m, done', dist', pred', k) {
      if k != id { assert PredRight(m, done, dist, pred, k); }
    }
  }

  /** The longest-path table, filled along the load order; `best` is the first deepest component. */
  method Depths(reg: Registry) returns (dist: map<Id, nat>, pred: map<Id, Option<Id>>, best: Option<Id>, depth: nat)
    requires reg.Loaded()
    ensures DepthsRight(reg.comps, reg.order, dist, pred)
    ensures best == None <==> reg.order == []
    ensures best.Some? ==> best.value in reg.order && dist[best.value] == depth
    ensures forall k :: k in reg.order ==> dist[k] <= depth
  {
    hide Topological, DepthsRight;
    dist, pred, best, depth := map[], map[], None, 0;
    NoDepths(reg.comps);
    for i := 0 to |reg.order|
      invariant DepthsRight(reg.comps, reg.order[..i], dist, pred)
      invariant forall k :: k in reg.order[..i] ==> k in dist && dist[k] <= depth
      invariant (best == None <==> i == 0) && (best == None ==> depth == 0)
      invariant best.Some? ==> best.value in reg.order[..i] && dist[best.value] == depth
    {
      var id := reg.order[i];
      NextInOrder(reg, i);
      DepthsDefined(reg.comps, reg.order[..i], dist, pred);
      var d, p := Deepest(reg.comps, reg.order[..i], dist, id);
      DepthIsLongest(reg.comps, reg.order[..i], dist, pred, id, d);
      DepthsGrow(reg.comps, reg.order[..i], dist, pred, id, d, p);
      TakeOneMore(reg.order, i);
      dist, pred := dist[id := d], pred[id := p];
      if d > depth {
        best, depth := Some(id), d;
      }
    }
    assert reg.order[..|reg.order|] == reg.order;
  }

  lemma NoDepths(m: Graph)
    ensures DepthsRight(m, [], map[], map[])
  {
  }

  lemma DepthsDefined(m: Graph, done: seq<Id>, dist: map<Id, nat>, pred: map<Id, Option<Id>>)
    requires DepthsRight(m, done, dist, pred)
    ensures forall k :: k in done ==> k in dist && dist[k] >= 1
  {
  }

  lemma NextInOrder(reg: Registry, i: nat)
    requires reg.Loaded() && i < |reg.order|
    ensures reg.order[i] in reg.comps && reg.order[i] !in reg.order[..i]
    ensures forall r :: r in reg.comps[reg.order[i]].needs ==> r in reg.order[..i]
  {
    forall r | r in reg.comps[reg.order[i]].needs ensures r in reg.order[..i] {
      assert r in Deps(reg.comps, reg.order[i]);
      assert Before(reg.order, i, r);
    }
  }

  /** Follows the predecessors from the deepest component down to one without requirements. */
  method WalkDown(reg: Registry, dist: map<Id, nat>, pred: map<Id, Option<Id>>, best: Id) returns (down: seq<Id>)
    requires reg.Loaded() && DepthsRight(reg.comps, reg.order, dist, pred) && best in reg.order
    ensures |down| >= 1 && Chain(reg.comps, down) && down[0] == best && |down| == dist[best]
    ensures down[|down| - 1] in reg.comps && reg.comps[down[|down| - 1]].needs == []
  {
    hide Topological, NoLongerChain;
    down := [best];
    var cur := best;
    assert PredRight(reg.comps, reg.order, dist, pred, cur);
    while pred[cur].Some?
      invariant cur in reg.order && PredRight(reg.comps, reg.order, dist, pred, cur)
      invariant Chain(reg.comps, down) && down[0] == best && down[|down| - 1] == cur
      invariant |down| + dist[cur] == dist[best] + 1
      decreases dist[cur]
    {
      var next := pred[cur].value;
      assert Chain(reg.comps, down + [next]);
      cur := next;
      down := down + [cur];
      assert PredRight(reg.comps, reg.order, dist, pred, cur);
    }
  }

  /** A longest `requires` chain, from a component with no prerequisites up to one nothing requires. */
  method CriticalPath(reg: Registry) returns (path: seq<Id>)
    requires reg.Loaded()
    ensures path == [] <==> reg.order == []
    ensures path != [] ==> Chain(reg.comps, Reversed(path))
    ensures path != [] ==> path[0] in reg.comps && reg.comps[path[0]].needs == []
    ensures path != [] ==> forall k :: k in reg.comps ==> path[|path| - 1] !in reg.comps[k].needs
    ensures forall p :: Chain(reg.comps, p) && p[|p| - 1] in reg.comps ==> |p| <= |path|
  {
    hide *;
    var dist, pred, best, depth := Depths(reg);
    path := [];
    if best.Some? {
      var down := WalkDown(reg, dist, pred, best.value);
      path := Reversed(down);
      NothingLonger(reg, dist, pred, depth);
      NothingAbove(reg, down);
      ReversedTwice(down);
    } else {
      NothingAtAll(reg);
    }
  }

  lemma ReversedTwice<T>(s: seq<T>)
    ensures Reversed(Reversed(s)) == s
  {
  }

  lemma NothingAtAll(reg: Registry)
    requires reg.Loaded() && reg.order == []
    ensures forall p :: Chain(reg.comps, p) && p[|p| - 1] in reg.comps ==> |p| <= 0
  {
    assert forall x :: x !in reg.comps by {
      forall x ensures x !in reg.comps { assert x in reg.order <==> x in reg.comps; }
    }
  }

  lemma NothingLonger(reg: Registry, dist: map<Id, nat>, pred: map<Id, Option<Id>>, depth: nat)
    requires reg.Loaded() && DepthsRight(reg.comps, reg.order, dist, pred)
    requires forall k :: k in reg.order ==> dist[k] <= depth
    ensures forall p :: Chain(reg.comps, p) && p[|p| - 1] in reg.comps ==> |p| <= depth
  {
    forall p | Chain(reg.comps, p) && p[|p| - 1] in reg.comps ensures |p| <= depth {
      assert p[0] in reg.comps;
      assert p[0] in reg.order;
      assert NoLongerChain(reg.comps, p[0], dist[p[0]]);
    }
  }

  lemma NothingAbove(reg: Registry, down: seq<Id>)
    requires Chain(reg.comps, down) && down[|down| - 1] in reg.comps
    requires forall p :: Chain(reg.comps, p) && p[|p| - 1] in reg.comps ==> |p| <= |down|
    ensures forall k :: k in reg.comps ==> down[0] !in reg.comps[k].needs
  {
    forall k | k in reg.comps ensures down[0] !in reg.comps[k].needs {
      ChainGrows(reg.comps, k, down);
      assert |[k] + down| > |down| && ([k] + down)[|[k] + down| - 1] == down[|down| - 1];
    }
  }

  lemma ChainGrows(m: Graph, k: Id, down: seq<Id>)
    requires Chain(m, down) && k in m
    ensures Chain(m, [k] + down) <==> down[0] in m[k].needs
  {
    assert ([k] + down)[1] == down[0] && ([k] + down)[0] == k;
  }

  // ------------------------------------------------------ dependency paths

  ghost function Prefixed(id: Id, ps: seq<seq<Id>>): (r: seq<seq<Id>>) {
    seq(|ps|, i requires 0 <= i < |ps| => [id] + ps[i])
  }

  /** Every chain from `id` down to a component without requirements, in walk order. */
  ghost function Down(reg: Registry, id: Id): seq<seq<Id>>
    requires reg.Loaded() && id in reg.comps
    decreases Rank(reg, id), 1, 0
  {
    if reg.comps[id].needs == [] then [[id]] else DownFirst(reg, id, |reg.comps[id].needs|)
  }

  /** The chains through the first `k` requirements. */
  ghost function DownFirst(reg: Registry, id: Id, k: nat): seq<seq<Id>>
    requires reg.Loaded() && id in reg.comps && k <= |reg.comps[id].needs|
    decreases Rank(reg, id), 0, k
  {
    if k == 0 then []
    else
      var d := reg.comps[id].needs[k - 1];
      NeedsComeFirst(reg, id, d);
      NeedIsKnown(reg, id, d);
      DownFirst(reg, id, k - 1) + Prefixed(id, Down(reg, d))
  }

  lemma NeedIsKnown(reg: Registry, id: Id, d: Id)
    requires reg.Loaded() && id in reg.comps && d in reg.comps[id].needs
    ensures d in reg.comps && Rank(reg, d) < Rank(reg, id)
  {
    NeedsComeFirst(reg, id, d);
  }

  /** A finished walk: the ancestors, then the rest of the chain, turned round. */
  ghost function Emitted(acc: seq<Id>, ps: seq<seq<Id>>): (r: seq<seq<Id>>)
    ensures |r| == |ps| && forall i :: 0 <= i < |ps| ==> r[i] == Reversed(acc + ps[i])
  {
    seq(|ps|, i requires 0 <= i < |ps| => Reversed(acc + ps[i]))
  }

  lemma EmittedUnder(acc: seq<Id>, id: Id, done: seq<seq<Id>>, ps: seq<seq<Id>>)
    ensures Emitted(acc, done) + Emitted(acc + [id], ps) == Emitted(acc, done + Prefixed(id, ps))
  {
    forall i | 0 <= i < |ps| ensures (acc + [id]) + ps[i] == acc + ([id] + ps[i]) {
    }
  }

  lemma EmittedBase(acc: seq<Id>, id: Id)
    ensures Emitted(acc, [[id]]) == [Reversed(acc + [id])] && Emitted(acc, []) == []
  {
  }

  /** The components above `id` on the current path all require it. */
  ghost predicate Ancestors(reg: Registry, acc: seq<Id>, id: Id) {
    forall x :: x in acc ==> Requires(reg.comps, x, id)
  }

  /** On a loaded registry the ancestor guard never cuts a path. */
  lemma GuardNeverCuts(reg: Registry, acc: seq<Id>, id: Id, r: Id)
    requires reg.Loaded() && id in reg.comps && r in reg.comps[id].needs && Ancestors(reg, acc, id)
    ensures r !in acc + [id] && Ancestors(reg, acc + [id], r)
  {
    RequiresDirect(reg.comps, id, r);
    forall x | x in acc + [id] ensures x != r && Requires(reg.comps, x, r) {
      if x in acc { RequiresTransitive(reg.comps, x, id, r); }
      RequiresDescends(reg, x, r);
    }
  }

  /** The recursive walk: `acc` is the current path, `out` collects the finished ones. */
  class PathWalker {
    var acc: seq<Id>
    var out: seq<seq<Id>>

    constructor ()
      ensures acc == [] && out == []
    {
      acc, out := [], [];
    }

    method Walk(reg: Registry, id: Id)
      requires reg.Loaded() && id in reg.comps && Ancestors(reg, acc, id)
      modifies this
      ensures acc == old(acc)
      ensures out == old(out) + Emitted(old(acc), Down(reg, id))
      decreases Rank(reg, id)
    {
      hide Ancestors, Topological, Requires, Emitted, Prefixed;
      ghost var acc0, out0 := acc, out;
      acc := acc + [id];
      var reqs := reg.comps[id].needs;
      if reqs == [] {
        out := out + [Reversed(acc)];
        EmittedBase(acc0, id);
      } else {
        EmittedBase(acc0, id);
        for i := 0 to |reqs|
          invariant acc == acc0 + [id] && out == out0 + Emitted(acc0, DownFirst(reg, id, i))
        {
          var r := reqs[i];
          assert r in reqs;
          NeedIsKnown(reg, id, r);
          GuardNeverCuts(reg, acc0, id, r);
          EmittedUnder(acc0, id, DownFirst(reg, id, i), Down(reg, r));
          if r !in acc {
            Walk(reg, r);
          }
        }
      }
      acc := acc[..|acc| - 1];
    }
  }

  method DependencyPaths(reg: Registry, id: Id) returns (paths: seq<seq<Id>>)
    requires reg.Loaded()
    ensures id !in reg.comps ==> paths == []
    ensures id in reg.comps ==> paths == Emitted([], Down(reg, id))
  {
    if id !in reg.comps {
      return [];
    }
    var w := new PathWalker();
    w.Walk(reg, id);
    paths := w.out;
  }

  /** A path as the caller sees it: from a component without requirements up to `id`. */
  ghost predicate RootPath(m: Graph, id: Id, path: seq<Id>) {
    && path != [] && path[|path| - 1] == id
    && path[0] in m && m[path[0]].needs == []
    && Chain(m, Reversed(path))
  }

  ghost predicate DownPath(m: Graph, id: Id, p: seq<Id>) {
    Chain(m, p) && p[0] == id && p[|p| - 1] in m && m[p[|p| - 1]].needs == []
  }

  /** The walk finds exactly the chains that end in a component without requirements. */
  lemma {:induction false} DownIsExact(reg: Registry, id: Id, p: seq<Id>)
    requires reg.Loaded() && id in reg.comps
    ensures p in Down(reg, id) <==> DownPath(reg.comps, id, p)
    decreases Rank(reg, id), 1, 0
  {
    var needs := reg.comps[id].needs;
    assert DownPath(reg.comps, id, p) && |p| >= 2 ==> p[1] in needs;
    if needs == [] {
      assert DownPath(reg.comps, id, [id]);
      if DownPath(reg.comps, id, p) {
        assert p == [id];
      }
    } else {
      assert needs[..|needs|] == needs;
      DownFirstIsExact(reg, id, |needs|, p);
    }
  }

  lemma {:induction false} DownFirstIsExact(reg: Registry, id: Id, k: nat, p: seq<Id>)
    requires reg.Loaded() && id in reg.comps && k <= |reg.comps[id].needs|
    ensures p in DownFirst(reg, id, k) <==> |p| >= 2 && DownPath(reg.comps, id, p) && p[1] in reg.comps[id].needs[..k]
    decreases Rank(reg, id), 0, k
  {
    if k > 0 {
      var needs := reg.comps[id].needs;
      var d := needs[k - 1];
      NeedIsKnown(reg, id, d);
      DownFirstIsExact(reg, id, k - 1, p);
      TakeOneMore(needs, k - 1);
      if p != [] { DownIsExact(reg, d, p[1..]); }
      var ps := Down(reg, d);
      if p in Prefixed(id, ps) {
        var i :| 0 <= i < |ps| && p == [id] + ps[i];
        assert p[1..] == ps[i];
        assert ps[i] in ps;
      }
      if |p| >= 2 && DownPath(reg.comps, id, p) && p[1] == d {
        assert DownPath(reg.comps, d, p[1..]);
        var i :| 0 <= i < |ps| && ps[i] == p[1..];
        assert Prefixed(id, ps)[i] == p;
      }
    }
  }

  /** `dependency_paths` returns all the root-to-`id` paths and nothing else. */
  lemma PathsAreExact(reg: Registry, id: Id, path: seq<Id>)
    requires reg.Loaded() && id in reg.comps
    ensures path in Emitted([], Down(reg, id)) <==> RootPath(reg.comps, id, path)
  {
    var ps := Down(reg, id);
    ReversedTwice(path);
    DownIsExact(reg, id, Reversed(path));
    if path in Emitted([], ps) {
      var i :| 0 <= i < |ps| && Emitted([], ps)[i] == path;
      assert [] + ps[i] == ps[i];
      ReversedTwice(ps[i]);
      assert ps[i] in ps;
    }
    if RootPath(reg.comps, id, path) {
      var i :| 0 <= i < |ps| && ps[i] == Reversed(path);
      assert [] + ps[i] == ps[i];
      assert Emitted([], ps)[i] == path;
    }
  }

  lemma NoDupParts<T>(a: seq<T>, b: seq<T>)
    ensures NoDup(a + b) <==> NoDup(a) && NoDup(b) && forall x :: x in b ==> x !in a
  {
    if NoDup(a + b) {
      assert forall i :: 0 <= i < |a| ==> (a + b)[i] == a[i];
      assert forall i :: 0 <= i < |b| ==> (a + b)[|a| + i] == b[i];
      forall x | x in b ensures x !in a {
        var j :| 0 <= j < |b| && b[j] == x;
        assert (a + b)[|a| + j] == x;
      }
    }
    if NoDup(a) && NoDup(b) && forall x :: x in b ==> x !in a {
      assert forall x :: x in b ==> x !in ToSet(a);
      NoDupConcat(a, b);
    }
  }

  lemma PrefixedNoDup(id: Id, ps: seq<seq<Id>>)
    ensures NoDup(Prefixed(id, ps)) <==> NoDup(ps)
  {
    var rs := Prefixed(id, ps);
    forall i, j | 0 <= i < |ps| && 0 <= j < |ps| ensures rs[i] == rs[j] <==> ps[i] == ps[j] {
      assert rs[i][1..] == ps[i] && rs[j][1..] == ps[j];
    }
  }

  lemma {:induction false} DownIsSome(reg: Registry, id: Id)
    requires reg.Loaded() && id in reg.comps
    ensures Down(reg, id) != []
    decreases Rank(reg, id)
  {
    var needs := reg.comps[id].needs;
    if needs != [] {
      var n := |needs| - 1;
      NeedIsKnown(reg, id, needs[n]);
      DownIsSome(reg, needs[n]);
      assert Prefixed(id, Down(reg, needs[n])) != [];
    }
  }

  /** A path through `d` is among the earlier ones exactly when `d` is among the earlier requirements. */
  lemma ThroughAgain(reg: Registry, id: Id, k: nat)
    requires reg.Loaded() && id in reg.comps && k < |reg.comps[id].needs|
    ensures reg.comps[id].needs[k] in reg.comps
    ensures var needs := reg.comps[id].needs;
      (exists p :: p in Prefixed(id, Down(reg, needs[k])) && p in DownFirst(reg, id, k)) <==> needs[k] in needs[..k]
  {
    var needs := reg.comps[id].needs;
    var d := needs[k];
    NeedIsKnown(reg, id, d);
    DownIsSome(reg, d);
    var ps, rs := Down(reg, d), Prefixed(id, Down(reg, d));
    forall i | 0 <= i < |rs| ensures rs[i] in DownFirst(reg, id, k) <==> d in needs[..k] {
      assert ps[i] in ps;
      DownIsExact(reg, d, ps[i]);
      assert rs[i] == [id] + ps[i] && rs[i][1..] == ps[i];
      LongerDown(reg, id, d, ps[i]);
      DownFirstIsExact(reg, id, k, rs[i]);
    }
    assert rs[0] in rs;
  }

  lemma LongerDown(reg: Registry, id: Id, d: Id, p: seq<Id>)
    requires id in reg.comps && d in reg.comps[id].needs && DownPath(reg.comps, d, p)
    ensures var r := [id] + p; |r| >= 2 && r[1] == d && DownPath(reg.comps, id, r)
  {
    var r := [id] + p;
    forall i | 0 <= i < |r| - 1 ensures r[i] in reg.comps && r[i + 1] in reg.comps[r[i]].needs {
      if i > 0 { assert p[i - 1] in reg.comps && p[i] in reg.comps[p[i - 1]].needs; }
    }
  }

  lemma {:induction false} DownFirstNoDup(reg: Registry, id: Id, k: nat)
    requires reg.Loaded() && id in reg.comps && k <= |reg.comps[id].needs|
    ensures forall j :: 0 <= j < k ==> reg.comps[id].needs[j] in reg.comps
    ensures NoDup(DownFirst(reg, id, k)) <==>
      NoDup(reg.comps[id].needs[..k]) && forall j :: 0 <= j < k ==> NoDup(Down(reg, reg.comps[id].needs[j]))
  {
    hide NoDup, Down, Topological;
    var needs := reg.comps[id].needs;
    if k == 0 {
      NothingRepeats();
      assert needs[..0] == [];
    } else {
      var d := needs[k - 1];
      DownFirstNoDup(reg, id, k - 1);
      ThroughAgain(reg, id, k - 1);
      PrefixedNoDup(id, Down(reg, d));
      NoDupParts(DownFirst(reg, id, k - 1), Prefixed(id, Down(reg, d)));
      assert needs[..k] == needs[..k - 1] + [d];
      OneRepeatsNot(d);
      NoDupParts(needs[..k - 1], [d]);
    }
  }

  lemma NothingRepeats()
    ensures NoDup<Id>([]) && NoDup<seq<Id>>([])
  {
  }

  lemma OneRepeatsNot(d: Id)
    ensures NoDup([d])
  {
  }

  /** No component that `id` stands on, itself included, lists a requirement twice. */
  ghost predicate NeedsOnce(m: Graph, id: Id) {
    forall c :: c in ClosureOf(m, id) ==> NoDup(m[c].needs)
  }

  lemma RequiresSplits(m: Graph, id: Id, c: Id)
    requires Requires(m, id, c)
    ensures exists d :: id in m && d in m[id].needs && (d == c || Requires(m, d, c))
  {
    var p :| ChainFromTo(m, p, id, c);
    if |p| > 2 { assert ChainFromTo(m, p[1..], p[1], c); }
    assert p[0] in m && p[1] in m[p[0]].needs;
  }

  lemma NeedsOnceSplits(reg: Registry, id: Id)
    requires reg.Loaded() && id in reg.comps
    ensures NeedsOnce(reg.comps, id) <==>
      NoDup(reg.comps[id].needs) && forall d :: d in reg.comps[id].needs ==> NeedsOnce(reg.comps, d)
  {
    hide NoDup, Requires;
    var m := reg.comps;
    forall d, c | d in m[id].needs && c in ClosureOf(m, d) ensures c in ClosureOf(m, id) {
      RequiresDirect(m, id, d);
      if c != d { RequiresTransitive(m, id, d, c); }
    }
    forall c | c in ClosureOf(m, id) && c != id ensures exists d :: d in m[id].needs && c in ClosureOf(m, d) {
      RequiresSplits(m, id, c);
      var d :| d in m[id].needs && (d == c || Requires(m, d, c));
      assert c in ClosureOf(m, d);
    }
    assert id in ClosureOf(m, id);
  }

  lemma {:induction false} DownNoDup(reg: Registry, id: Id)
    requires reg.Loaded() && id in reg.comps
    ensures NoDup(Down(reg, id)) <==> NeedsOnce(reg.comps, id)
    decreases Rank(reg, id)
  {
    hide NoDup, DownFirst, NeedsOnce, Topological;
    var needs := reg.comps[id].needs;
    NeedsOnceSplits(reg, id);
    if needs == [] {
      NothingRepeats();
      OnePathRepeatsNot(id);
    } else {
      DownFirstNoDup(reg, id, |needs|);
      assert needs[..|needs|] == needs;
      forall j | 0 <= j < |needs| ensures NoDup(Down(reg, needs[j])) <==> NeedsOnce(reg.comps, needs[j]) {
        NeedIsKnown(reg, id, needs[j]);
        DownNoDup(reg, needs[j]);
      }
    }
  }

  lemma OnePathRepeatsNot(id: Id)
    ensures NoDup([[id]])
  {
  }

  /** No path is listed twice exactly when no component that `id` stands on repeats a requirement. */
  lemma PathsAreNoDup(reg: Registry, id: Id)
    requires reg.Loaded() && id in reg.comps
    ensures NoDup(Emitted([], Down(reg, id))) <==> NeedsOnce(reg.comps, id)
  {
    hide Down, NeedsOnce, Topological;
    DownNoDup(reg, id);
    var ps := Down(reg, id);
    forall i, j | 0 <= i < |ps| && 0 <= j < |ps| ensures Emitted([], ps)[i] == Emitted([], ps)[j] <==> ps[i] == ps[j] {
      assert [] + ps[i] == ps[i] && [] + ps[j] == ps[j];
      ReversedTwice(ps[i]);
      ReversedTwice(ps[j]);
    }
  }
}
