/** The component registry: Kahn's sort and the transitive queries. */
module Registry {
  import opened Collections

  /** A component id. Only equality matters; a manifest lists its ids in `String` order. */
  type Id(==, !new)

  datatype Component = Component(
    needs: seq<Id>,               // the manifest's `requires`
    gpuRequired: bool,
    destructive: bool,
    hasDetect: bool,
    hasInstall: bool,
    hasVerify: bool,
    hasFix: bool,
    hasRemove: bool,
    shellWiring: bool,            // owns shell start-up blocks or PATH entries
    systemWiring: bool,           // owns apt / nix / CDI / alternatives wiring
    otherWiring: bool)            // owns desktop, systemd, data or config wiring
  {
    /** Owns at least one declarative side effect. */
    predicate HasWiring() { shellWiring || systemWiring || otherWiring }

    /** Owns wiring whose absence the executor can see. */
    predicate ProbedWiring() { shellWiring || systemWiring }
  }

  /** `BTreeMap<String, Component>`: the entries, and the order in which they are iterated. */
  datatype Manifest = Manifest(keys: seq<Id>, comps: Graph) {
    ghost predicate Valid() { Lists(keys, comps.Keys) }
  }

  type Graph = map<Id, Component>

  datatype LoadError =
    | UnknownDependency(dependent: Id, dep: Id)
    | DependencyCycle(id: Id)
    | UnknownComponent(id: Id)

  function Deps(m: Graph, id: Id): set<Id>
    requires id in m
  {
    set d | d in m[id].needs
  }

  // ---------------------------------------------------------------- chains

  /** Each element directly requires the next one. */
  ghost predicate Chain(m: Graph, p: seq<Id>) {
    && p != []
    && forall i :: 0 <= i < |p| - 1 ==> p[i] in m && p[i + 1] in m[p[i]].needs
  }

  ghost predicate ChainFromTo(m: Graph, p: seq<Id>, a: Id, b: Id) {
    Chain(m, p) && |p| >= 2 && p[0] == a && p[|p| - 1] == b
  }

  /** `a` requires `b`, directly or through other components. */
  ghost predicate Requires(m: Graph, a: Id, b: Id) {
    exists p :: ChainFromTo(m, p, a, b)
  }

  ghost predicate OnCycle(m: Graph, a: Id) {
    Requires(m, a, a)
  }

  ghost predicate ReachesCycle(m: Graph, a: Id) {
    exists c :: (c == a || Requires(m, a, c)) && OnCycle(m, c)
  }

  ghost predicate Missing(m: Graph, id: Id, dep: Id) {
    id in m && dep in m[id].needs && dep !in m
  }

  ghost predicate HasMissing(m: Graph) {
    exists id, dep :: Missing(m, id, dep)
  }

  /** Every id once, every direct prerequisite earlier. */
  ghost predicate Topological(m: Graph, order: seq<Id>) {
    && NoDup(order)
    && (forall x :: x in order <==> x in m)
    && OrderedPrefix(m, order)
  }

  ghost predicate Before(out: seq<Id>, i: nat, d: Id)
    requires i <= |out|
  {
    exists j :: 0 <= j < i && out[j] == d
  }

  /** Every direct prerequisite of a listed component is listed earlier. */
  ghost predicate OrderedPrefix(m: Graph, out: seq<Id>) {
    && (forall i :: 0 <= i < |out| ==> out[i] in m)
    && forall i, d :: 0 <= i < |out| && d in Deps(m, out[i]) ==> Before(out, i, d)
  }

  lemma RequiresDirect(m: Graph, a: Id, b: Id)
    requires a in m && b in m[a].needs
    ensures Requires(m, a, b)
  {
    assert ChainFromTo(m, [a, b], a, b);
  }

  lemma RequiresTransitive(m: Graph, a: Id, b: Id, c: Id)
    requires Requires(m, a, b) && Requires(m, b, c)
    ensures Requires(m, a, c)
  {
    var p :| ChainFromTo(m, p, a, b);
    var q :| ChainFromTo(m, q, b, c);
    var r := p + q[1..];
    forall i | 0 <= i < |r| - 1 ensures r[i] in m && r[i + 1] in m[r[i]].needs {
      if i >= |p| - 1 {
        assert r[i] == q[i - |p| + 1] && r[i + 1] == q[i - |p| + 2];
      }
    }
    assert ChainFromTo(m, r, a, c);
  }

  // ------------------------------------------------ what an order rules out

  /** Along a chain, positions in a topologically sorted prefix strictly decrease. */
  lemma {:induction false} ChainDescends(m: Graph, order: seq<Id>, p: seq<Id>, i: nat)
    requires OrderedPrefix(m, order)
    requires Chain(m, p) && i < |order| && p[0] == order[i]
    ensures |p| >= 2 ==> Before(order, i, p[|p| - 1])
    ensures |p| <= i + 1
    decreases |p|
  {
    if |p| >= 2 {
      assert p[1] in Deps(m, order[i]);
      var j :| 0 <= j < i && order[j] == p[1];
      ChainDescends(m, order, p[1..], j);
    }
  }

  lemma SortedReachesNoCycle(m: Graph, order: seq<Id>, id: Id)
    requires NoDup(order) && OrderedPrefix(m, order) && id in order
    ensures !ReachesCycle(m, id)
  {
    forall a | a in order ensures !OnCycle(m, a) {
      var i :| 0 <= i < |order| && order[i] == a;
      forall p | ChainFromTo(m, p, a, a) ensures false {
        ChainDescends(m, order, p, i);
      }
    }
    forall c | Requires(m, id, c) ensures c in order {
      var p :| ChainFromTo(m, p, id, c);
      var i :| 0 <= i < |order| && order[i] == id;
      ChainDescends(m, order, p, i);
    }
  }

  // ------------------------------------------------ what a stuck set implies

  /** A walk of any length inside a set whose members each have a requirement in it. */
  lemma {:induction false} LongChain(m: Graph, stuck: set<Id>, id: Id, n: nat) returns (p: seq<Id>)
    requires forall k :: k in stuck ==> k in m && Deps(m, k) * stuck != {}
    requires id in stuck
    ensures Chain(m, p) && |p| == n + 1 && p[0] == id
    ensures forall i :: 0 <= i < |p| ==> p[i] in stuck
    decreases n
  {
    if n == 0 {
      p := [id];
    } else {
      assert Deps(m, id) * stuck != {};
      var d :| d in Deps(m, id) * stuck;
      var q := LongChain(m, stuck, d, n - 1);
      p := [id] + q;
      forall i | 0 <= i < |p| - 1 ensures p[i] in m && p[i + 1] in m[p[i]].needs {
        if i > 0 { assert p[i] == q[i - 1] && p[i + 1] == q[i]; }
      }
    }
  }

  /** A walk longer than the set it stays in repeats an element. */
  lemma WalkRepeats(p: seq<Id>, stuck: set<Id>) returns (i: nat, j: nat)
    requires |p| > |stuck| && forall k :: 0 <= k < |p| ==> p[k] in stuck
    ensures i < j < |p| && p[i] == p[j]
  {
    if NoDup(p) {
      NoDupCardinality(p);
      SubsetCardinality(ToSet(p), stuck);
      assert false;
    }
    i, j :| 0 <= i < j < |p| && p[i] == p[j];
  }

  lemma RepeatIsCycle(m: Graph, p: seq<Id>, i: nat, j: nat)
    requires Chain(m, p) && i < j < |p| && p[i] == p[j]
    ensures ReachesCycle(m, p[0])
  {
    assert ChainFromTo(m, p[i..j + 1], p[i], p[i]);
    assert OnCycle(m, p[i]);
    if i > 0 {
      assert ChainFromTo(m, p[..i + 1], p[0], p[i]);
      assert Requires(m, p[0], p[i]);
    }
  }

  lemma StuckReachesCycle(m: Graph, stuck: set<Id>, id: Id)
    requires forall k :: k in stuck ==> k in m && Deps(m, k) * stuck != {}
    requires id in stuck
    ensures ReachesCycle(m, id)
  {
    var p := LongChain(m, stuck, id, |stuck|);
    var i, j := WalkRepeats(p, stuck);
    RepeatIsCycle(m, p, i, j);
  }

  // ------------------------------------------------------------ topo_sort

  ghost predicate CountOf(m: Graph, indeg: map<Id, nat>, done: set<Id>, k: Id) {
    k in m && k in indeg && indeg[k] == |Deps(m, k) - done|
  }

  ghost predicate Counted(m: Graph, indeg: map<Id, nat>, done: set<Id>, ids: set<Id>) {
    forall k :: k in ids ==> CountOf(m, indeg, done, k)
  }

  /** `seen` holds exactly those of `ids` all of whose requirements are done. */
  ghost predicate Released(m: Graph, seen: set<Id>, done: set<Id>, ids: set<Id>) {
    forall k :: k in ids ==> k in m && (k in seen <==> Deps(m, k) <= done)
  }

  /** Adds one to `id`'s indegree for each distinct requirement. */
  method CountDeps(m: Graph, indeg: map<Id, nat>, id: Id) returns (r: Result<map<Id, nat>, LoadError>)
    requires id in m && id in indeg && indeg[id] == 0
    ensures r.Failure? <==> exists d :: Missing(m, id, d)
    ensures r.Failure? ==> r.error.UnknownDependency? && r.error.dependent == id && Missing(m, id, r.error.dep)
    ensures r.Success? ==> r.value == indeg[id := |Deps(m, id)|]
  {
    var todo := Deps(m, id);
    var counted := indeg;
    while todo != {}
      invariant todo <= Deps(m, id)
      invariant counted.Keys == indeg.Keys && counted[id] == |Deps(m, id)| - |todo|
      invariant forall k :: k in indeg && k != id ==> counted[k] == indeg[k]
      invariant forall d :: d in Deps(m, id) && d !in todo ==> d in m
    {
      var dep :| dep in todo;
      if dep !in m {
        assert Missing(m, id, dep);
        return Failure(UnknownDependency(id, dep));
      }
      counted := counted[id := counted[id] + 1];
      todo := todo - {dep};
    }
    return Success(counted);
  }

  /** Counts each distinct requirement once; a requirement that is no component is reported. */
  method CountIndegrees(keys: seq<Id>, m: Graph) returns (r: Result<map<Id, nat>, LoadError>)
    requires Lists(keys, m.Keys)
    ensures r.Failure? <==> HasMissing(m)
    ensures r.Failure? ==> r.error.UnknownDependency? && Missing(m, r.error.dependent, r.error.dep)
    ensures r.Success? ==> r.value.Keys == m.Keys && Counted(m, r.value, {}, m.Keys)
  {
    var indeg: map<Id, nat> := map k | k in m :: 0;
    for i := 0 to |keys|
      invariant indeg.Keys == m.Keys
      invariant forall j :: 0 <= j < i ==> indeg[keys[j]] == |Deps(m, keys[j])|
      invariant forall j :: i <= j < |keys| ==> indeg[keys[j]] == 0
      invariant forall j, d :: 0 <= j < i ==> !Missing(m, keys[j], d)
    {
      var counted := CountDeps(m, indeg, keys[i]);
      if counted.Failure? {
        return Failure(counted.error);
      }
      indeg := counted.value;
    }
    forall k | k in m ensures indeg[k] == |Deps(m, k) - {}| && forall d :: !Missing(m, k, d) {
      assert k in keys;
      assert Deps(m, k) - {} == Deps(m, k);
    }
    return Success(indeg);
  }

  /** What one finished component does to one other: the count never drops below zero. */
  method ReleaseOne(m: Graph, indeg: map<Id, nat>, c: Id, ghost done: set<Id>, n: Id)
    returns (indeg': map<Id, nat>, released: bool)
    requires n !in done && CountOf(m, indeg, done, c)
    ensures CountOf(m, indeg', done + {n}, c)
    ensures forall k, s :: k != c && CountOf(m, indeg, s, k) ==> CountOf(m, indeg', s, k)
    ensures released <==> n in Deps(m, c) && Deps(m, c) <= done + {n}
  {
    indeg', released := indeg, false;
    if n in m[c].needs {
      assert Deps(m, c) - done == (Deps(m, c) - (done + {n})) + {n};
      indeg' := indeg[c := indeg[c] - 1];
      if indeg'[c] == 0 {
        assert Deps(m, c) - (done + {n}) == {};
        released := true;
      }
    } else {
      assert Deps(m, c) - done == Deps(m, c) - (done + {n});
      assert indeg == indeg[c := indeg[c]];
    }
  }

  lemma SplitAt(keys: seq<Id>, ids: set<Id>, i: nat)
    requires Lists(keys, ids) && i < |keys|
    ensures keys[i] in ids
    ensures ToSet(keys[..i + 1]) == ToSet(keys[..i]) + {keys[i]} && keys[i] !in ToSet(keys[..i])
    ensures ToSet(keys[i..]) == ToSet(keys[i + 1..]) + {keys[i]} && keys[i] !in ToSet(keys[i + 1..])
    ensures ToSet(keys[..i + 1]) <= ToSet(keys)
  {
    TakeOneMore(keys, i);
    assert keys[i..] == [keys[i]] + keys[i + 1..];
  }

  /** `line` is the output (its first `k` ids) followed by the queue. */
  ghost predicate KahnInv(m: Graph, indeg: map<Id, nat>, line: seq<Id>, k: nat)
    requires k <= |line|
  {
    && Counted(m, indeg, ToSet(line[..k]), m.Keys)
    && Released(m, ToSet(line), ToSet(line[..k]), m.Keys)
    && NoDup(line)
    && (forall x :: x in line ==> x in m)
    && OrderedPrefix(m, line[..k])
  }

  lemma ZeroCount(m: Graph, indeg: map<Id, nat>, k: Id)
    requires CountOf(m, indeg, {}, k)
    ensures k in indeg && (indeg[k] == 0 <==> Deps(m, k) <= {})
  {
    assert Deps(m, k) - {} == Deps(m, k);
  }

  lemma KahnStart(m: Graph, indeg: map<Id, nat>, q: seq<Id>)
    requires indeg.Keys == m.Keys && Counted(m, indeg, {}, m.Keys)
    requires NoDup(q) && forall k :: k in q <==> k in m && indeg[k] == 0
    ensures KahnInv(m, indeg, q, 0)
  {
    hide CountOf, NoDup;
    assert ToSet(q[..0]) == {};
    forall k | k in m ensures k in ToSet(q) <==> Deps(m, k) <= {} {
      ZeroCount(m, indeg, k);
    }
  }

  lemma OrderedPrefixGrows(m: Graph, out: seq<Id>, n: Id)
    requires OrderedPrefix(m, out) && n in m && Deps(m, n) <= ToSet(out)
    ensures OrderedPrefix(m, out + [n])
  {
    var out' := out + [n];
    forall i, d | 0 <= i < |out'| && d in Deps(m, out'[i]) ensures Before(out', i, d) {
      if i < |out| {
        assert Before(out, i, d);
        var j :| 0 <= j < i && out[j] == d;
        assert out'[j] == d;
      } else {
        assert d in ToSet(out);
        var j :| 0 <= j < |out| && out[j] == d;
        assert out'[j] == d;
      }
    }
  }

  lemma KahnStep(m: Graph, indeg: map<Id, nat>, line: seq<Id>, k: nat, indeg': map<Id, nat>, added: seq<Id>)
    requires k < |line| && KahnInv(m, indeg, line, k)
    requires NoDup(added) && forall x :: x in added ==> x in m && x !in ToSet(line)
    requires Counted(m, indeg', ToSet(line[..k]) + {line[k]}, m.Keys)
    requires Released(m, ToSet(line) + ToSet(added), ToSet(line[..k]) + {line[k]}, m.Keys)
    ensures KahnInv(m, indeg', line + added, k + 1)
  {
    hide CountOf;
    var n, line' := line[k], line + added;
    assert Deps(m, n) <= ToSet(line[..k]) by { assert n in ToSet(line); }
    OrderedPrefixGrows(m, line[..k], n);
    NoDupConcat(line, added);
    hide Released, OrderedPrefix, NoDup;
    assert line'[..k + 1] == line[..k] + [n];
    assert ToSet(line'[..k + 1]) == ToSet(line[..k]) + {n};
    assert ToSet(line') == ToSet(line) + ToSet(added);
  }

  lemma KahnRoom(m: Graph, indeg: map<Id, nat>, line: seq<Id>, k: nat)
    requires k < |line| && KahnInv(m, indeg, line, k)
    ensures k < |m| && line[k] !in ToSet(line[..k]) && line[k] in ToSet(line)
  {
    hide CountOf, Released;
    NoDupCardinality(line);
    SubsetCardinality(ToSet(line), m.Keys);
    assert |m.Keys| == |m|;
  }

  lemma KahnParts(m: Graph, indeg: map<Id, nat>, line: seq<Id>, k: nat)
    requires k <= |line| && KahnInv(m, indeg, line, k)
    ensures Counted(m, indeg, ToSet(line[..k]), m.Keys) && Released(m, ToSet(line), ToSet(line[..k]), m.Keys)
  {
  }

  lemma KahnDone(m: Graph, indeg: map<Id, nat>, out: seq<Id>)
    requires KahnInv(m, indeg, out, |out|)
    ensures NoDup(out) && OrderedPrefix(m, out) && Released(m, ToSet(out), ToSet(out), m.Keys)
  {
    assert out[..|out|] == out;
  }

  /** One round of Kahn's loop: `n` is done, so every dependent loses one indegree. */
  method ReleaseDependents(keys: seq<Id>, m: Graph, indeg: map<Id, nat>, q: seq<Id>,
                           ghost done: set<Id>, ghost seen: set<Id>, n: Id)
    returns (indeg': map<Id, nat>, q': seq<Id>, ghost added: seq<Id>)
    requires Lists(keys, m.Keys) && n !in done && n in seen
    requires Counted(m, indeg, done, m.Keys) && Released(m, seen, done, m.Keys)
    ensures q' == q + added && NoDup(added)
    ensures forall x :: x in added ==> x in m && x !in seen
    ensures Counted(m, indeg', done + {n}, m.Keys)
    ensures Released(m, seen + ToSet(added), done + {n}, m.Keys)
    ensures InKeyOrder(keys, added) && forall x :: x in added ==> n in Deps(m, x) && Deps(m, x) <= done + {n}
  {
    hide *;
    indeg', q', added := indeg, q, [];
    NothingYet(keys);
    assert keys[..0] == [] && keys[0..] == keys && keys[..|keys|] == keys;
    ReleaseStart(keys, m, indeg, done, seen, n);
    ghost var before: set<Id>, after := {}, m.Keys;
    for i := 0 to |keys|
      invariant before == ToSet(keys[..i]) && after == ToSet(keys[i..])
      invariant q' == q + added && Fresh(added, seen, before)
      invariant Counted(m, indeg', done, after)
      invariant Counted(m, indeg', done + {n}, before)
      invariant Released(m, seen + ToSet(added), done + {n}, before)
      invariant InKeyOrder(keys, added) && forall x :: x in added ==> x in keys[..i]
    {
      var c := keys[i];
      SplitAt(keys, m.Keys, i);
      TakeOneMore(keys, i);
      InKeyOrderGrows(keys, added, i);
      ghost var was := indeg';
      CountedAt(m, was, done, after, c);
      var released;
      indeg', released := ReleaseOne(m, indeg', c, done, n);
      CountedMove(m, was, indeg', done, n, before, after, c);
      ReleasedMove(m, seen, added, done, n, before, c, released);
      if released {
        q', added := q' + [c], added + [c];
      }
      before, after := before + {c}, after - {c};
    }
    FreshMembers(added, seen, m.Keys);
    AddedAreFree(m, seen, done, n, added);
  }

  lemma NothingYet(keys: seq<Id>)
    ensures InKeyOrder(keys, [])
  {
  }

  lemma AddedAreFree(m: Graph, seen: set<Id>, done: set<Id>, n: Id, added: seq<Id>)
    requires Released(m, seen, done, m.Keys) && Released(m, seen + ToSet(added), done + {n}, m.Keys)
    requires forall x :: x in added ==> x in m && x !in seen
    ensures forall x :: x in added ==> n in Deps(m, x) && Deps(m, x) <= done + {n}
  {
    forall x | x in added ensures n in Deps(m, x) && Deps(m, x) <= done + {n} {
      assert x in seen + ToSet(added);
    }
  }

  lemma ReleaseStart(keys: seq<Id>, m: Graph, indeg: map<Id, nat>, done: set<Id>, seen: set<Id>, n: Id)
    requires Lists(keys, m.Keys)
    ensures ToSet(keys) == m.Keys && ToSet<Id>([]) == {}
    ensures Fresh([], seen, {}) && Counted(m, indeg, done + {n}, {})
    ensures Released(m, seen + ToSet([]), done + {n}, {})
  {
  }

  /** `added` lists, without repetition, some of `before` that are not in `seen`. */
  ghost predicate Fresh(added: seq<Id>, seen: set<Id>, before: set<Id>) {
    NoDup(added) && ToSet(added) <= before && ToSet(added) !! seen
  }

  lemma FreshMembers(added: seq<Id>, seen: set<Id>, ids: set<Id>)
    requires Fresh(added, seen, ids)
    ensures NoDup(added) && forall x :: x in added ==> x in ids && x !in seen
  {
    assert forall x :: x in added ==> x in ToSet(added);
  }

  lemma CountedAt(m: Graph, indeg: map<Id, nat>, done: set<Id>, ids: set<Id>, c: Id)
    requires Counted(m, indeg, done, ids) && c in ids
    ensures CountOf(m, indeg, done, c)
  {
  }

  lemma CountedMove(m: Graph, indeg: map<Id, nat>, indeg': map<Id, nat>, done: set<Id>, n: Id,
                    before: set<Id>, after: set<Id>, c: Id)
    requires Counted(m, indeg, done, after) && Counted(m, indeg, done + {n}, before) && c !in before
    requires CountOf(m, indeg', done + {n}, c)
    requires forall k, s :: k != c && CountOf(m, indeg, s, k) ==> CountOf(m, indeg', s, k)
    ensures Counted(m, indeg', done, after - {c}) && Counted(m, indeg', done + {n}, before + {c})
  {
    hide CountOf;
  }

  lemma ReleasedMove(m: Graph, seen: set<Id>, added: seq<Id>, done: set<Id>, n: Id,
                     before: set<Id>, c: Id, released: bool)
    requires Released(m, seen, done, m.Keys) && c in m && n !in done && n in seen
    requires Fresh(added, seen, before) && c !in before
    requires Released(m, seen + ToSet(added), done + {n}, before)
    requires released <==> n in Deps(m, c) && Deps(m, c) <= done + {n}
    ensures var added' := if released then added + [c] else added;
      Fresh(added', seen, before + {c}) && Released(m, seen + ToSet(added'), done + {n}, before + {c})
  {
    assert c in seen <==> Deps(m, c) <= done;
    assert Deps(m, c) <= done + {n} && n !in Deps(m, c) ==> Deps(m, c) <= done;
    assert ToSet(added + [c]) == ToSet(added) + {c};
  }

  method InitialQueue(keys: seq<Id>, m: Graph, indeg: map<Id, nat>) returns (q: seq<Id>)
    requires Lists(keys, m.Keys) && indeg.Keys == m.Keys && Counted(m, indeg, {}, m.Keys)
    ensures KahnInv(m, indeg, q, 0) && Ranked(m, keys, q, 0)
  {
    hide Counted, KahnInv, InKeyOrder, Ranked;
    q := [];
    NothingYet(keys);
    for i := 0 to |keys|
      invariant NoDup(q) && forall k :: k in q <==> k in keys[..i] && indeg[k] == 0
      invariant InKeyOrder(keys, q)
    {
      assert keys[i] !in keys[..i];
      TakeOneMore(keys, i);
      InKeyOrderGrows(keys, q, i);
      if indeg[keys[i]] == 0 {
        q := q + [keys[i]];
      }
    }
    KahnStart(m, indeg, q);
    ZerosAreFree(m, indeg, q);
    RankedStart(m, keys, q);
  }

  lemma ZerosAreFree(m: Graph, indeg: map<Id, nat>, q: seq<Id>)
    requires indeg.Keys == m.Keys && Counted(m, indeg, {}, m.Keys) && forall k :: k in q ==> k in m && indeg[k] == 0
    ensures forall x :: x in q ==> x in m && Deps(m, x) <= {}
  {
    forall x | x in q ensures Deps(m, x) <= {} { ZeroCount(m, indeg, x); }
  }

  // ---- which of the topological orders: ties are broken by key order

  ghost predicate Sooner(keys: seq<Id>, a: Id, b: Id) {
    exists i, j :: 0 <= i < j < |keys| && keys[i] == a && keys[j] == b
  }

  ghost predicate InKeyOrder(keys: seq<Id>, s: seq<Id>) {
    forall i, j :: 0 <= i < j < |s| ==> Sooner(keys, s[i], s[j])
  }

  lemma InKeyOrderGrows(keys: seq<Id>, s: seq<Id>, i: nat)
    requires i < |keys| && InKeyOrder(keys, s) && forall x :: x in s ==> x in keys[..i]
    ensures InKeyOrder(keys, s + [keys[i]])
  {
    forall a | 0 <= a < |s| ensures Sooner(keys, s[a], keys[i]) {
      assert s[a] in s;
      var j :| 0 <= j < i && keys[..i][j] == s[a];
      assert keys[j] == s[a];
    }
  }

  /** `t` is the first moment at which all that `id` requires stands in `line[..t]`. */
  ghost predicate FreeAt(m: Graph, line: seq<Id>, id: Id, t: nat) {
    id in m && t <= |line| && Deps(m, id) <= ToSet(line[..t]) && (t > 0 ==> !(Deps(m, id) <= ToSet(line[..t - 1])))
  }

  /** `a` was free before `b`, or at the same moment with the smaller key. */
  ghost predicate Earlier(m: Graph, keys: seq<Id>, line: seq<Id>, a: Id, b: Id) {
    exists s, t :: FreeAt(m, line, a, s) && FreeAt(m, line, b, t) && (s < t || (s == t && Sooner(keys, a, b)))
  }

  /** First come, first served; ties by key order. */
  ghost predicate KahnOrdered(m: Graph, keys: seq<Id>, line: seq<Id>) {
    forall i, j :: 0 <= i < j < |line| ==> Earlier(m, keys, line, line[i], line[j])
  }

  ghost predicate FreeBy(m: Graph, line: seq<Id>, id: Id, k: nat) {
    exists s: nat :: s <= k && FreeAt(m, line, id, s)
  }

  /** After `k` pops: the queue history so far is in first-come order. */
  ghost predicate Ranked(m: Graph, keys: seq<Id>, line: seq<Id>, k: nat) {
    KahnOrdered(m, keys, line) && forall x :: x in line ==> FreeBy(m, line, x, k)
  }

  lemma FreeAtExtends(m: Graph, line: seq<Id>, more: seq<Id>, id: Id, t: nat)
    requires FreeAt(m, line, id, t)
    ensures FreeAt(m, line + more, id, t)
  {
    assert (line + more)[..t] == line[..t];
    if t > 0 { assert (line + more)[..t - 1] == line[..t - 1]; }
  }

  lemma RankedStart(m: Graph, keys: seq<Id>, q: seq<Id>)
    requires InKeyOrder(keys, q) && forall x :: x in q ==> x in m && Deps(m, x) <= {}
    ensures Ranked(m, keys, q, 0)
  {
    assert q[..0] == [] && ToSet<Id>([]) == {};
    forall x | x in q ensures FreeBy(m, q, x, 0) { assert FreeAt(m, q, x, 0); }
    forall i, j | 0 <= i < j < |q| ensures Earlier(m, keys, q, q[i], q[j]) {
      assert q[i] in q && q[j] in q;
      assert FreeAt(m, q, q[i], 0) && FreeAt(m, q, q[j], 0);
    }
  }

  lemma FreedNow(m: Graph, line: seq<Id>, k: nat, added: seq<Id>, x: Id)
    requires k < |line| && x in m && line[k] in Deps(m, x) && line[k] !in ToSet(line[..k])
    requires Deps(m, x) <= ToSet(line[..k]) + {line[k]}
    ensures FreeAt(m, line + added, x, k + 1)
  {
    var line' := line + added;
    assert line'[..k + 1] == line[..k] + [line[k]] && line'[..k] == line[..k];
    assert ToSet(line[..k] + [line[k]]) == ToSet(line[..k]) + {line[k]};
    assert k + 1 - 1 == k;
  }

  lemma RankedStep(m: Graph, keys: seq<Id>, line: seq<Id>, k: nat, added: seq<Id>)
    requires k < |line| && Ranked(m, keys, line, k) && InKeyOrder(keys, added) && line[k] !in ToSet(line[..k])
    requires forall x :: x in added ==> x in m && line[k] in Deps(m, x) && Deps(m, x) <= ToSet(line[..k]) + {line[k]}
    ensures Ranked(m, keys, line + added, k + 1)
  {
    hide FreeAt, Sooner;
    var line' := line + added;
    forall x | x in added ensures FreeAt(m, line', x, k + 1) { FreedNow(m, line, k, added, x); }
    forall x, s | FreeAt(m, line, x, s) ensures FreeAt(m, line', x, s) { FreeAtExtends(m, line, added, x, s); }
    forall x | x in line' ensures FreeBy(m, line', x, k + 1) {
      if x in line {
        assert FreeBy(m, line, x, k);
        var s: nat :| s <= k && FreeAt(m, line, x, s);
        assert FreeAt(m, line', x, s);
      } else {
        assert x in added;
      }
    }
    forall i, j | 0 <= i < j < |line'| ensures Earlier(m, keys, line', line'[i], line'[j]) {
      if j < |line| {
        assert Earlier(m, keys, line, line[i], line[j]);
        var s, t :| FreeAt(m, line, line[i], s) && FreeAt(m, line, line[j], t) && (s < t || (s == t && Sooner(keys, line[i], line[j])));
        assert FreeAt(m, line', line'[i], s) && FreeAt(m, line', line'[j], t);
      } else {
        assert line'[j] == added[j - |line|] && line'[j] in added;
        if i < |line| {
          assert line[i] in line && FreeBy(m, line, line[i], k);
          var s: nat :| s <= k && FreeAt(m, line, line[i], s);
          assert FreeAt(m, line', line'[i], s) && FreeAt(m, line', line'[j], k + 1);
        } else {
          assert line'[i] == added[i - |line|] && line'[i] in added;
          assert Sooner(keys, added[i - |line|], added[j - |line|]);
        }
      }
    }
  }

  lemma FreeAtIsUnique(m: Graph, a: seq<Id>, b: seq<Id>, n: nat, id: Id, s: nat, t: nat)
    requires n <= |a| && n <= |b| && a[..n] == b[..n] && id in m && Deps(m, id) <= ToSet(a[..n])
    requires FreeAt(m, a, id, s) && FreeAt(m, b, id, t)
    ensures s == t
  {
    FreeSoon(m, a, n, id, s);
    FreeSoon(m, b, n, id, t);
    assert a[..s] == a[..n][..s] && b[..t] == a[..n][..t] && a[..t] == a[..n][..t] && b[..s] == a[..n][..s];
    FreeSoon(m, b, s, id, t);
    FreeSoon(m, a, t, id, s);
  }

  lemma FreeSoon(m: Graph, a: seq<Id>, n: nat, id: Id, s: nat)
    requires n <= |a| && id in m && Deps(m, id) <= ToSet(a[..n]) && FreeAt(m, a, id, s)
    ensures s <= n
  {
    PrefixesGrow(a);
  }

  lemma PrefixesGrow(a: seq<Id>)
    ensures forall i, j :: 0 <= i <= j <= |a| ==> ToSet(a[..i]) <= ToSet(a[..j])
  {
    forall i, j, x | 0 <= i <= j <= |a| && x in a[..i] ensures x in a[..j] {
      var k :| 0 <= k < i && a[..i][k] == x;
      assert a[..j][k] == x;
    }
  }

  lemma DepsBefore(m: Graph, a: seq<Id>, n: nat)
    requires OrderedPrefix(m, a) && n < |a|
    ensures a[n] in m && Deps(m, a[n]) <= ToSet(a[..n])
  {
    forall d | d in Deps(m, a[n]) ensures d in a[..n] {
      assert Before(a, n, d);
      var j :| 0 <= j < n && a[j] == d;
      assert a[..n][j] == d;
    }
  }

  lemma LaterOn(a: seq<Id>, n: nat, x: Id) returns (i: nat)
    requires n < |a| && x in a && x !in a[..n] && x != a[n]
    ensures n < i < |a| && a[i] == x
  {
    i :| 0 <= i < |a| && a[i] == x;
    assert forall k :: 0 <= k < n ==> a[..n][k] == a[k];
  }

  lemma SameNext(m: Graph, keys: seq<Id>, a: seq<Id>, b: seq<Id>, n: nat)
    requires NoDup(keys) && Topological(m, a) && KahnOrdered(m, keys, a) && Topological(m, b) && KahnOrdered(m, keys, b)
    requires n < |a| && n < |b| && a[..n] == b[..n]
    ensures a[n] == b[n]
  {
    var x, y := a[n], b[n];
    if x != y {
      NotBefore(a, n);
      NotBefore(b, n);
      var i := LaterOn(b, n, x);
      var j := LaterOn(a, n, y);
      assert Earlier(m, keys, a, a[n], a[j]) && Earlier(m, keys, b, b[n], b[i]);
      DepsBefore(m, a, n);
      DepsBefore(m, b, n);
      var s, t :| FreeAt(m, a, x, s) && FreeAt(m, a, y, t) && (s < t || (s == t && Sooner(keys, x, y)));
      var u, v :| FreeAt(m, b, y, u) && FreeAt(m, b, x, v) && (u < v || (u == v && Sooner(keys, y, x)));
      FreeAtIsUnique(m, a, b, n, x, s, v);
      FreeAtIsUnique(m, a, b, n, y, t, u);
      NotBothWays(keys, x, y);
    }
  }

  lemma NotBothWays(keys: seq<Id>, x: Id, y: Id)
    requires NoDup(keys)
    ensures !(Sooner(keys, x, y) && Sooner(keys, y, x))
  {
  }

  lemma NotBefore(a: seq<Id>, n: nat)
    requires NoDup(a) && n < |a|
    ensures a[n] !in a[..n]
  {
  }

  lemma {:induction false} SamePrefixes(m: Graph, keys: seq<Id>, a: seq<Id>, b: seq<Id>, n: nat)
    requires NoDup(keys) && Topological(m, a) && KahnOrdered(m, keys, a) && Topological(m, b) && KahnOrdered(m, keys, b)
    requires n <= |a| && n <= |b|
    ensures a[..n] == b[..n]
  {
    hide *;
    if n > 0 {
      SamePrefixes(m, keys, a, b, n - 1);
      SameNext(m, keys, a, b, n - 1);
      assert a[..n] == a[..n - 1] + [a[n - 1]] && b[..n] == b[..n - 1] + [b[n - 1]];
    }
  }

  lemma TopologicalSize(m: Graph, a: seq<Id>)
    requires Topological(m, a)
    ensures |a| == |m|
  {
    NoDupCardinality(a);
    assert ToSet(a) == m.Keys;
  }

  /** There is only one such order: the sort is determined by the manifest. */
  lemma SortIsDetermined(man: Manifest, a: seq<Id>, b: seq<Id>)
    requires man.Valid() && Topological(man.comps, a) && Topological(man.comps, b)
    requires KahnOrdered(man.comps, man.keys, a) && KahnOrdered(man.comps, man.keys, b)
    ensures a == b
  {
    hide Topological, KahnOrdered;
    TopologicalSize(man.comps, a);
    TopologicalSize(man.comps, b);
    SamePrefixes(man.comps, man.keys, a, b, |a|);
    assert a[..|a|] == a && b[..|b|] == b;
  }

  lemma ManifestLists(man: Manifest)
    requires man.Valid()
    ensures Lists(man.keys, man.comps.Keys)
  {
  }

  /** Kahn's sort: the three outcomes, each exactly when it is due. */
  method TopoSort(man: Manifest) returns (r: Result<seq<Id>, LoadError>)
    requires man.Valid()
    ensures r.Success? ==> Topological(man.comps, r.value) && KahnOrdered(man.comps, man.keys, r.value)
    ensures r.Success? <==> !HasMissing(man.comps) && forall id :: id in man.comps ==> !OnCycle(man.comps, id)
    ensures r.Failure? && HasMissing(man.comps) ==>
      r.error.UnknownDependency? && Missing(man.comps, r.error.dependent, r.error.dep)
    ensures r.Failure? && !HasMissing(man.comps) ==>
      r.error.DependencyCycle? && FirstCycleReaching(man, r.error.id)
  {
    hide CountOf;
    hide *;
    var keys, m := man.keys, man.comps;
    ManifestLists(man);
    var counted := CountIndegrees(keys, m);
    if counted.Failure? {
      return Failure(counted.error);
    }
    var indeg := counted.value;
    var q := InitialQueue(keys, m, indeg);
    var out: seq<Id> := [];
    assert out + q == q;
    while q != []
      invariant KahnInv(m, indeg, out + q, |out|) && Ranked(m, keys, out + q, |out|)
      decreases |m| - |out|
    {
      var n := q[0];
      ghost var line, k := out + q, |out|;
      assert line[k] == n && line[..k] == out;
      KahnRoom(m, indeg, line, k);
      KahnParts(m, indeg, line, k);
      ghost var was, added := indeg, [];
      indeg, q, added := ReleaseDependents(keys, m, indeg, q[1..], ToSet(out), ToSet(line), n);
      KahnStep(m, was, line, k, indeg, added);
      RankedStep(m, keys, line, k, added);
      assert (out + [n]) + q == line + added;
      out := out + [n];
    }
    assert out + q == out;
    KahnDone(m, indeg, out);
    RankedIsOrdered(m, keys, out);
    r := CheckComplete(man, out);
  }

  lemma RankedIsOrdered(m: Graph, keys: seq<Id>, out: seq<Id>)
    requires Ranked(m, keys, out, |out|)
    ensures KahnOrdered(m, keys, out)
  {
  }

  ghost function CycleReaching(m: Graph): set<Id> {
    set id | id in m && ReachesCycle(m, id)
  }

  /** `id` is the first component, in key order, from which a cycle can be reached. */
  ghost predicate FirstCycleReaching(man: Manifest, id: Id) {
    exists i :: 0 <= i < |man.keys| && man.keys[i] == id && ReachesCycle(man.comps, id)
                && forall j :: 0 <= j < i ==> !ReachesCycle(man.comps, man.keys[j])
  }

  lemma LeftoverReachesCycle(m: Graph, out: seq<Id>)
    requires !HasMissing(m) && NoDup(out) && OrderedPrefix(m, out)
    requires Released(m, ToSet(out), ToSet(out), m.Keys)
    ensures m.Keys - ToSet(out) == CycleReaching(m)
  {
    var stuck := m.Keys - ToSet(out);
    forall k | k in stuck ensures Deps(m, k) * stuck != {} {
      var d :| d in Deps(m, k) && d !in ToSet(out);
      assert !Missing(m, k, d);
      assert d in Deps(m, k) * stuck;
    }
    forall k | k in m ensures k in stuck <==> ReachesCycle(m, k) {
      if k in stuck { StuckReachesCycle(m, stuck, k); } else { SortedReachesNoCycle(m, out, k); }
    }
  }

  lemma CycleIsInManifest(m: Graph, id: Id)
    requires ReachesCycle(m, id)
    ensures exists c :: c in m && OnCycle(m, c)
  {
    var c :| (c == id || Requires(m, id, c)) && OnCycle(m, c);
    var p :| ChainFromTo(m, p, c, c);
    assert p[0] in m;
  }

  method FirstNotIn(keys: seq<Id>, out: seq<Id>) returns (i: nat)
    requires exists k :: k in keys && k !in out
    ensures i < |keys| && keys[i] !in out && forall j :: 0 <= j < i ==> keys[j] in out
  {
    ghost var k :| k in keys && k !in out;
    ghost var at :| 0 <= at < |keys| && keys[at] == k;
    i := 0;
    while keys[i] in out
      invariant 0 <= i <= at
      invariant forall j :: 0 <= j < i ==> keys[j] in out
      decreases at - i
    {
      i := i + 1;
    }
  }

  lemma SomethingLeft(out: seq<Id>, ids: set<Id>)
    requires NoDup(out) && ToSet(out) <= ids && |out| != |ids|
    ensures ids - ToSet(out) != {}
  {
    NoDupCardinality(out);
    assert ids == ToSet(out) + (ids - ToSet(out));
  }

  lemma AllOut(out: seq<Id>, ids: set<Id>)
    requires NoDup(out) && ToSet(out) <= ids && |out| == |ids|
    ensures ToSet(out) == ids
  {
    NoDupCardinality(out);
    SubsetCardinality(ToSet(out), ids);
  }

  /** With the queue drained: all ids are out, or the first one left over is reported. */
  method CheckComplete(man: Manifest, out: seq<Id>) returns (r: Result<seq<Id>, LoadError>)
    requires man.Valid() && !HasMissing(man.comps)
    requires NoDup(out) && OrderedPrefix(man.comps, out)
    requires Released(man.comps, ToSet(out), ToSet(out), man.comps.Keys)
    ensures r.Success? ==> r.value == out && Topological(man.comps, r.value)
    ensures r.Success? <==> forall id :: id in man.comps ==> !OnCycle(man.comps, id)
    ensures r.Failure? ==> r.error.DependencyCycle? && FirstCycleReaching(man, r.error.id)
  {
    assert ToSet(out) <= man.comps.Keys && |man.comps.Keys| == |man.comps|;
    LeftoverReachesCycle(man.comps, out);
    if |out| != |man.comps| {
      SomethingLeft(out, man.comps.Keys);
      ghost var left :| left in man.comps.Keys - ToSet(out);
      assert left in man.keys;
      var i := FirstNotIn(man.keys, out);
      assert man.keys[i] in CycleReaching(man.comps);
      forall j | 0 <= j < i ensures !ReachesCycle(man.comps, man.keys[j]) {
        assert man.keys[j] in ToSet(out);
      }
      CycleIsInManifest(man.comps, man.keys[i]);
      return Failure(DependencyCycle(man.keys[i]));
    }
    AllOut(out, man.comps.Keys);
    assert forall id :: id in man.comps ==> id !in CycleReaching(man.comps);
    return Success(out);
  }

  /** The id in `DependencyCycle` need not lie on a cycle: with `a` and `b` both requiring `b`, `a` is named. */
  lemma NamedIdMayOnlyReachCycle(a: Id, b: Id, c: Component)
    requires a != b && c.needs == [b]
    ensures var man := Manifest([a, b], map[a := c, b := c]);
      && man.Valid() && !HasMissing(man.comps)
      && FirstCycleReaching(man, a) && !OnCycle(man.comps, a) && OnCycle(man.comps, b)
  {
    var man := Manifest([a, b], map[a := c, b := c]);
    var m := man.comps;
    RequiresDirect(m, a, b);
    RequiresDirect(m, b, b);
    forall p | Chain(m, p) && |p| >= 2 ensures p[|p| - 1] == b {
      var i := |p| - 2;
      assert p[i + 1] in m[p[i]].needs;
    }
    assert man.keys[0] == a && ReachesCycle(m, a);
  }

  // ------------------------------------------------- the loaded registry

  datatype Registry = Registry(comps: Graph, order: seq<Id>) {
    ghost predicate Loaded() { Topological(comps, order) }
  }

  method Load(man: Manifest) returns (r: Result<Registry, LoadError>)
    requires man.Valid()
    ensures r.Success? ==> r.value.comps == man.comps && r.value.Loaded()
    ensures r.Success? ==> KahnOrdered(man.comps, man.keys, r.value.order)
    ensures r.Success? <==> !HasMissing(man.comps) && forall id :: id in man.comps ==> !OnCycle(man.comps, id)
  {
    hide *;
    var order := TopoSort(man);
    if order.Failure? {
      return Failure(order.error);
    }
    LoadedOrder(man.comps, order.value);
    return Success(Registry(man.comps, order.value));
  }

  lemma LoadedOrder(m: Graph, order: seq<Id>)
    requires Topological(m, order)
    ensures Registry(m, order).Loaded()
  {
  }

  ghost function Pos(order: seq<Id>, id: Id): (i: nat)
    requires id in order
    ensures i < |order| && order[i] == id
  {
    var i :| 0 <= i < |order| && order[i] == id; i
  }

  /** Prerequisites stand earlier in the load order. */
  lemma NeedsComeFirst(reg: Registry, id: Id, d: Id)
    requires reg.Loaded() && id in reg.comps && d in reg.comps[id].needs
    ensures id in reg.order && d in reg.order && Pos(reg.order, d) < Pos(reg.order, id)
  {
    var i := Pos(reg.order, id);
    assert d in Deps(reg.comps, reg.order[i]);
    var j :| 0 <= j < i && reg.order[j] == d;
  }

  ghost function Rank(reg: Registry, id: Id): nat
    requires reg.Loaded()
  {
    if id in reg.comps then Pos(reg.order, id) + 1 else 0
  }

  /** `is_prereq_of`: does `target` require `cand`, directly or through others? */
  predicate IsPrereqOf(reg: Registry, cand: Id, target: Id)
    requires reg.Loaded()
    decreases Rank(reg, target)
  {
    target in reg.comps &&
    (cand in reg.comps[target].needs ||
     exists d | d in reg.comps[target].needs ::
       (NeedsComeFirst(reg, target, d); IsPrereqOf(reg, cand, d)))
  }

  /** The recursive query answers exactly whether a `requires` chain exists. */
  lemma {:induction false} PrereqIsChain(reg: Registry, cand: Id, target: Id)
    requires reg.Loaded()
    ensures IsPrereqOf(reg, cand, target) <==> Requires(reg.comps, target, cand)
    decreases Rank(reg, target)
  {
    if target in reg.comps {
      forall d | d in reg.comps[target].needs
        ensures IsPrereqOf(reg, cand, d) <==> Requires(reg.comps, d, cand)
        ensures Requires(reg.comps, target, d)
      {
        NeedsComeFirst(reg, target, d);
        PrereqIsChain(reg, cand, d);
        RequiresDirect(reg.comps, target, d);
      }
      if IsPrereqOf(reg, cand, target) && cand !in reg.comps[target].needs {
        var d :| d in reg.comps[target].needs && IsPrereqOf(reg, cand, d);
        RequiresTransitive(reg.comps, target, d, cand);
      }
      if Requires(reg.comps, target, cand) && cand !in reg.comps[target].needs {
        var p :| ChainFromTo(reg.comps, p, target, cand);
        assert ChainFromTo(reg.comps, p[1..], p[1], cand);
        assert p[1] in reg.comps[target].needs && Requires(reg.comps, p[1], cand);
      }
    }
  }

  /** Along any chain the load order strictly decreases, so nothing requires itself. */
  lemma RequiresDescends(reg: Registry, a: Id, b: Id)
    requires reg.Loaded() && Requires(reg.comps, a, b)
    ensures a in reg.order && b in reg.order && Pos(reg.order, b) < Pos(reg.order, a)
  {
    var p :| ChainFromTo(reg.comps, p, a, b);
    assert p[0] in reg.comps;
    var i := Pos(reg.order, a);
    ChainDescends(reg.comps, reg.order, p, i);
    var j :| 0 <= j < i && reg.order[j] == b;
    assert Pos(reg.order, b) == j;
  }

  /** The members of `s`, in the order they have in `order`. */
  ghost function Select(order: seq<Id>, s: set<Id>): (r: seq<Id>)
    ensures forall x :: x in r <==> x in order && x in s
  {
    if order == [] then [] else
      var rest := Select(order[..|order| - 1], s);
      var x := order[|order| - 1];
      assert order == order[..|order| - 1] + [x];
      if x in s then rest + [x] else rest
  }

  lemma {:induction false} SelectKeepsOrder(order: seq<Id>, s: set<Id>)
    requires NoDup(order)
    ensures NoDup(Select(order, s))
    ensures forall i, j :: 0 <= i < j < |Select(order, s)| ==>
              Pos(order, Select(order, s)[i]) < Pos(order, Select(order, s)[j])
  {
    if order != [] {
      var n := |order| - 1;
      var init, x := order[..n], order[n];
      SelectKeepsOrder(init, s);
      assert order == init + [x] && x !in init;
      forall y | y in init ensures Pos(order, y) == Pos(init, y) {
      }
      var rest := Select(init, s);
      forall i, j | 0 <= i < j < |Select(order, s)|
        ensures Select(order, s)[i] != Select(order, s)[j]
        ensures Pos(order, Select(order, s)[i]) < Pos(order, Select(order, s)[j])
      {
        assert Select(order, s)[i] == rest[i] && rest[i] in init;
        if j < |rest| { assert rest[j] in init; }
      }
    }
  }

  ghost function ClosureOf(m: Graph, id: Id): set<Id> {
    set c | c in m && (c == id || Requires(m, id, c))
  }

  ghost function ReverseDependentsOf(m: Graph, id: Id): set<Id> {
    set c | c in m && Requires(m, c, id)
  }

  /** `id` and its transitive prerequisites, in load order. */
  method Closure(reg: Registry, id: Id) returns (r: Result<seq<Id>, LoadError>)
    requires reg.Loaded()
    ensures id !in reg.comps ==> r == Failure(UnknownComponent(id))
    ensures id in reg.comps ==> r == Success(Select(reg.order, ClosureOf(reg.comps, id)))
  {
    if id !in reg.comps {
      return Failure(UnknownComponent(id));
    }
    hide Topological, ChainFromTo;
    var out: seq<Id> := [];
    for i := 0 to |reg.order|
      invariant out == Select(reg.order[..i], ClosureOf(reg.comps, id))
    {
      var cid := reg.order[i];
      PrereqIsChain(reg, cid, id);
      OrderMember(reg, i);
      assert reg.order[..i + 1][..i] == reg.order[..i];
      if cid == id || IsPrereqOf(reg, cid, id) {
        out := out + [cid];
      }
    }
    assert reg.order[..|reg.order|] == reg.order;
    return Success(out);
  }

  lemma OrderMember(reg: Registry, i: nat)
    requires reg.Loaded() && i < |reg.order|
    ensures reg.order[i] in reg.comps
  {
  }

  /** The components that require `id`, directly or through others, in load order. */
  method ReverseDependents(reg: Registry, id: Id) returns (out: seq<Id>)
    requires reg.Loaded()
    ensures out == Select(reg.order, ReverseDependentsOf(reg.comps, id))
  {
    hide Topological, ChainFromTo;
    out := [];
    for i := 0 to |reg.order|
      invariant out == Select(reg.order[..i], ReverseDependentsOf(reg.comps, id))
    {
      var cid := reg.order[i];
      PrereqIsChain(reg, id, cid);
      OrderMember(reg, i);
      if cid == id && Requires(reg.comps, cid, id) {
        RequiresDescends(reg, id, id);
      }
      assert reg.order[..i + 1][..i] == reg.order[..i];
      if cid != id && IsPrereqOf(reg, id, cid) {
        out := out + [cid];
      }
    }
    assert reg.order[..|reg.order|] == reg.order;
  }
}
