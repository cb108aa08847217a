/** The spec lock: one content hash for each component, and the drift between a manifest and its lock. */
module SpecLock {
  import opened Collections
  import opened StringOrder
  import opened CanonicalJson
  import opened SpecHash

  /** A component as the lock sees it: its id, its `requires`, and its whole spec as JSON. */
  datatype Spec = Spec(id: string, needs: seq<string>, json: Json)

  datatype LockEntry = LockEntry(contentHash: string, needs: seq<string>, resolved: string)

  datatype Kind = Added | Removed | Changed

  // ------------------------------------------------------------------- hashing

  function Utf8Char(c: char): seq<byte> {
    var n := c as int;
    if n < 0x80 then [n]
    else if n < 0x800 then [0xC0 + n / 64, 0x80 + n % 64]
    else if n < 0x1_0000 then [0xE0 + n / 4096, 0x80 + n / 64 % 64, 0x80 + n % 64]
    else [0xF0 + n / 262144, 0x80 + n / 4096 % 64, 0x80 + n / 64 % 64, 0x80 + n % 64]
  }

  function Utf8(s: string): seq<byte> {
    if s == [] then [] else Utf8Char(s[0]) + Utf8(s[1..])
  }

  function SpecBytes(spec: Spec, plain: char -> bool): seq<byte> { Utf8(Canonical(spec.json, plain)) }

  function ComponentHash(spec: Spec, plain: char -> bool): string { Fnv1aHex(SpecBytes(spec, plain)) }

  // ------------------------------------------------------------ sorting the edges

  function InsertName(x: string, sorted: seq<string>): seq<string> {
    if sorted == [] || !Less(sorted[0], x) then [x] + sorted else [sorted[0]] + InsertName(x, sorted[1..])
  }

  function SortNames(names: seq<string>): seq<string> {
    if names == [] then [] else InsertName(names[0], SortNames(names[1..]))
  }

  /** Never the later one first; equal names may repeat. */
  ghost predicate Ascending(s: seq<string>) {
    forall i, j :: 0 <= i < j < |s| ==> !Less(s[j], s[i])
  }

  lemma {:induction false} InsertNameAscends(x: string, sorted: seq<string>)
    requires Ascending(sorted)
    ensures Ascending(InsertName(x, sorted)) && multiset(InsertName(x, sorted)) == multiset{x} + multiset(sorted)
  {
    hide Less;
    var r := InsertName(x, sorted);
    if sorted == [] {
    } else if !Less(sorted[0], x) {
      forall j | 0 < j < |r| ensures !Less(r[j], x) {
        if Less(r[j], x) && j > 1 {
          LessIsTotal(r[j], sorted[0]);
          NotBelow(sorted[0], r[j], x);
        }
      }
    } else {
      assert sorted == [sorted[0]] + sorted[1..];
      InsertNameAscends(x, sorted[1..]);
      var tail := InsertName(x, sorted[1..]);
      forall j | 0 <= j < |tail| ensures !Less(tail[j], sorted[0]) {
        assert tail[j] in multiset(tail);
        LessIsAsymmetric(sorted[0], x);
      }
    }
  }

  lemma LessIsAsymmetric(a: string, b: string)
    requires Less(a, b)
    ensures !Less(b, a)
  {
    hide Less;
    LessIsStrict(a);
    if Less(b, a) {
      LessIsTransitive(a, b, a);
    }
  }

  lemma NotBelow(a: string, b: string, x: string)
    requires !Less(a, x) && !Less(b, a)
    ensures !Less(b, x)
  {
    hide Less;
    LessIsTotal(b, a);
    if Less(b, x) && a != b {
      LessIsTransitive(a, b, x);
    }
  }

  lemma {:induction false} SortNamesSorts(names: seq<string>)
    ensures Ascending(SortNames(names)) && multiset(SortNames(names)) == multiset(names)
  {
    hide Less;
    if names != [] {
      SortNamesSorts(names[1..]);
      InsertNameAscends(names[0], SortNames(names[1..]));
      assert names == [names[0]] + names[1..];
    }
  }

  // ----------------------------------------------------------------- generate

  ghost predicate DistinctIds(specs: seq<Spec>) {
    forall i, j :: 0 <= i < j < |specs| ==> specs[i].id != specs[j].id
  }

  function EntryFor(spec: Spec, plain: char -> bool): LockEntry {
    LockEntry(ComponentHash(spec, plain), SortNames(spec.needs), "")
  }

  /** The lock after inserting every component's entry in turn. */
  function LockFor(specs: seq<Spec>, plain: char -> bool): map<string, LockEntry> {
    if specs == [] then map[]
    else
      var last := specs[|specs| - 1];
      LockFor(specs[..|specs| - 1], plain)[last.id := EntryFor(last, plain)]
  }

  /** With distinct ids the lock holds exactly one entry per component, and it is that component's. */
  lemma {:induction false} LockForHolds(specs: seq<Spec>, plain: char -> bool, id: string)
    requires DistinctIds(specs)
    ensures id in LockFor(specs, plain) <==> exists i :: 0 <= i < |specs| && specs[i].id == id
    ensures forall i :: 0 <= i < |specs| && specs[i].id == id ==> LockFor(specs, plain)[id] == EntryFor(specs[i], plain)
    decreases |specs|
  {
    hide EntryFor;
    if specs != [] {
      var n := |specs| - 1;
      LockForHolds(specs[..n], plain, id);
      if id == specs[n].id {
      } else if id in LockFor(specs, plain) {
        var i :| 0 <= i < n && specs[..n][i].id == id;
        assert specs[i].id == id;
      }
      forall i | 0 <= i < n && specs[i].id == id ensures id in LockFor(specs[..n], plain) {
        assert specs[..n][i].id == id;
      }
    }
  }

  /** What the lock records of a component: the hash of its canonical text, and its own edges in order. */
  lemma LockRecords(specs: seq<Spec>, plain: char -> bool, i: nat)
    requires DistinctIds(specs) && i < |specs|
    ensures specs[i].id in LockFor(specs, plain)
    ensures var e := LockFor(specs, plain)[specs[i].id];
      && e.contentHash == Fnv1aHex(Utf8(Canonical(specs[i].json, plain)))
      && Ascending(e.needs) && multiset(e.needs) == multiset(specs[i].needs) && e.resolved == ""
  {
    hide Canonical, Utf8, SortNames, Fnv1aHex, Ascending, LockFor;
    LockForHolds(specs, plain, specs[i].id);
    SortNamesSorts(specs[i].needs);
  }

  method Generate(specs: seq<Spec>, plain: char -> bool) returns (lock: map<string, LockEntry>)
    ensures lock == LockFor(specs, plain)
  {
    hide Canonical, Utf8, SortNames, HexDigits;
    lock := map[];
    for i := 0 to |specs|
      invariant lock == LockFor(specs[..i], plain)
    {
      assert specs[..i + 1][..i] == specs[..i];
      var hash := ComputeFnv1aHex(SpecBytes(specs[i], plain));
      lock := lock[specs[i].id := LockEntry(hash, SortNames(specs[i].needs), "")];
    }
    assert specs[..|specs|] == specs;
  }

  // --------------------------------------------------------------------- diff

  /** How one component has drifted, if it has. */
  function DriftOf(cur: map<string, LockEntry>, lock: map<string, LockEntry>, id: string): Option<Kind> {
    if id in cur then
      if id !in lock then Some(Added)
      else if lock[id].contentHash != cur[id].contentHash then Some(Changed)
      else None
    else if id in lock then Some(Removed) else None
  }

  /** `out` reports exactly the drifted components, each once, in the order of their ids. */
  ghost predicate Reports(out: seq<Keyed<Kind>>, cur: map<string, LockEntry>, lock: map<string, LockEntry>) {
    && Sorted(Keys(out))
    && forall id, kind :: Keyed(id, kind) in out <==> DriftOf(cur, lock, id) == Some(kind)
  }

  /** The drift among the ids in `done`, each reported once. */
  ghost predicate ReportsSome(out: seq<Keyed<Kind>>, done: set<string>, cur: map<string, LockEntry>, lock: map<string, LockEntry>) {
    && DistinctKeys(out)
    && forall id, kind :: Keyed(id, kind) in out <==> id in done && DriftOf(cur, lock, id) == Some(kind)
  }

  lemma ReportsOneMore(out: seq<Keyed<Kind>>, done: set<string>, cur: map<string, LockEntry>, lock: map<string, LockEntry>, id: string)
    requires ReportsSome(out, done, cur, lock) && id !in done
    ensures DriftOf(cur, lock, id).Some? ==> ReportsSome(out + [Keyed(id, DriftOf(cur, lock, id).value)], done + {id}, cur, lock)
    ensures DriftOf(cur, lock, id).None? ==> ReportsSome(out, done + {id}, cur, lock)
  {
    hide DriftOf;
    if DriftOf(cur, lock, id).Some? {
      var r := out + [Keyed(id, DriftOf(cur, lock, id).value)];
      forall i | 0 <= i < |out| ensures out[i].key != id {
        assert Keyed(out[i].key, out[i].value) in out;
      }
      forall k, kind ensures Keyed(k, kind) in r <==> k in done + {id} && DriftOf(cur, lock, k) == Some(kind) {
        assert Keyed(k, kind) in r <==> Keyed(k, kind) in out || Keyed(k, kind) == r[|out|];
      }
    }
  }

  /** The ids settled once only those in `todo` are left. */
  ghost function Settled(a: set<string>, b: set<string>, todo: set<string>): set<string> { a + (b - todo) }

  lemma SettleOne(a: set<string>, b: set<string>, todo: set<string>, id: string)
    requires id in todo && todo <= b
    ensures id in Settled(a, b, todo) <==> id in a
    ensures Settled(a, b, todo - {id}) == Settled(a, b, todo) + {id}
    ensures id in a ==> Settled(a, b, todo - {id}) == Settled(a, b, todo)
  {
  }

  lemma SettledEnds(a: set<string>, b: set<string>)
    ensures Settled(a, b, b) == a && Settled(a, b, {}) == a + b
  {
  }

  method DiffCurrent(now: map<string, LockEntry>, lock: map<string, LockEntry>) returns (found: seq<Keyed<Kind>>)
    ensures ReportsSome(found, now.Keys, now, lock)
  {
    hide DriftOf, ReportsSome, Settled;
    found := [];
    var todo := now.Keys;
    NothingReported(now, lock);
    SettledEnds({}, now.Keys);
    while todo != {}
      invariant todo <= now.Keys && ReportsSome(found, Settled({}, now.Keys, todo), now, lock)
      decreases |todo|
    {
      var id :| id in todo;
      SettleOne({}, now.Keys, todo, id);
      ReportsOneMore(found, Settled({}, now.Keys, todo), now, lock, id);
      CurrentDrift(now, lock, id);
      if id !in lock {
        found := found + [Keyed(id, Added)];
      } else if lock[id].contentHash != now[id].contentHash {
        found := found + [Keyed(id, Changed)];
      }
      todo := todo - {id};
    }
    assert {} + now.Keys == now.Keys;
  }

  method DiffGone(now: map<string, LockEntry>, lock: map<string, LockEntry>, before: seq<Keyed<Kind>>) returns (found: seq<Keyed<Kind>>)
    requires ReportsSome(before, now.Keys, now, lock)
    ensures ReportsSome(found, now.Keys + lock.Keys, now, lock)
  {
    hide DriftOf, ReportsSome, Settled;
    found := before;
    var todo := lock.Keys;
    SettledEnds(now.Keys, lock.Keys);
    while todo != {}
      invariant todo <= lock.Keys && ReportsSome(found, Settled(now.Keys, lock.Keys, todo), now, lock)
      decreases |todo|
    {
      var id :| id in todo;
      SettleOne(now.Keys, lock.Keys, todo, id);
      if id !in now {
        ReportsOneMore(found, Settled(now.Keys, lock.Keys, todo), now, lock, id);
        GoneDrift(now, lock, id);
        found := found + [Keyed(id, Removed)];
      }
      todo := todo - {id};
    }
  }

  method Diff(specs: seq<Spec>, lock: map<string, LockEntry>, plain: char -> bool) returns (out: seq<Keyed<Kind>>)
    ensures Reports(out, LockFor(specs, plain), lock)
  {
    hide DriftOf, SortKeyed, LockFor, Less;
    var now := Generate(specs, plain);
    var current := DiffCurrent(now, lock);
    var found := DiffGone(now, lock, current);
    SortIsSorted(found);
    NothingElseDrifts(now, lock);
    out := SortKeyed(found);
  }

  lemma NothingReported(cur: map<string, LockEntry>, lock: map<string, LockEntry>)
    ensures ReportsSome([], {}, cur, lock)
  {
  }

  lemma CurrentDrift(cur: map<string, LockEntry>, lock: map<string, LockEntry>, id: string)
    requires id in cur
    ensures DriftOf(cur, lock, id) ==
      if id !in lock then Some(Added) else if lock[id].contentHash != cur[id].contentHash then Some(Changed) else None
  {
  }

  lemma GoneDrift(cur: map<string, LockEntry>, lock: map<string, LockEntry>, id: string)
    requires id !in cur && id in lock
    ensures DriftOf(cur, lock, id) == Some(Removed)
  {
  }

  lemma NothingElseDrifts(cur: map<string, LockEntry>, lock: map<string, LockEntry>)
    ensures forall id :: DriftOf(cur, lock, id).Some? ==> id in cur.Keys + lock.Keys
  {
  }

  lemma DriftIsListed(out: seq<Keyed<Kind>>, cur: map<string, LockEntry>, lock: map<string, LockEntry>, id: string)
    requires Reports(out, cur, lock)
    ensures DriftOf(cur, lock, id).Some? ==> out != []
  {
    if DriftOf(cur, lock, id).Some? {
      assert Keyed(id, DriftOf(cur, lock, id).value) in out;
    }
  }

  /** A report is empty exactly when lock and manifest name the same components with the same hashes. */
  lemma EmptyReport(out: seq<Keyed<Kind>>, cur: map<string, LockEntry>, lock: map<string, LockEntry>)
    requires Reports(out, cur, lock)
    ensures out == [] <==>
      cur.Keys == lock.Keys && forall id :: id in cur && id in lock ==> cur[id].contentHash == lock[id].contentHash
  {
    if out == [] {
      forall id ensures DriftOf(cur, lock, id).None? {
        DriftIsListed(out, cur, lock, id);
      }
      forall id ensures id in cur <==> id in lock {
        assert DriftOf(cur, lock, id).None?;
      }
      forall id | id in cur && id in lock ensures cur[id].contentHash == lock[id].contentHash {
        assert DriftOf(cur, lock, id).None?;
      }
    } else {
      assert Keyed(out[0].key, out[0].value) in out;
      assert DriftOf(cur, lock, out[0].key).Some?;
    }
  }

  /** There is only one report: two that say the same about the same maps are the same list. */
  lemma ReportIsUnique(a: seq<Keyed<Kind>>, b: seq<Keyed<Kind>>, cur: map<string, LockEntry>, lock: map<string, LockEntry>)
    requires Reports(a, cur, lock) && Reports(b, cur, lock)
    ensures a == b
  {
    hide DriftOf;
    forall k ensures k in Keys(a) <==> k in Keys(b) {
      if k in Keys(a) { KeyReported(a, b, cur, lock, k); }
      if k in Keys(b) { KeyReported(b, a, cur, lock, k); }
    }
    SortedIsUnique(Keys(a), Keys(b));
    assert |a| == |Keys(a)| && |b| == |Keys(b)|;
    forall i | 0 <= i < |a| ensures a[i] == b[i] {
      assert Keys(a)[i] == Keys(b)[i];
      assert Keyed(a[i].key, a[i].value) in a && Keyed(b[i].key, b[i].value) in b;
    }
  }

  lemma KeyReported(a: seq<Keyed<Kind>>, b: seq<Keyed<Kind>>, cur: map<string, LockEntry>, lock: map<string, LockEntry>, k: string)
    requires Reports(a, cur, lock) && Reports(b, cur, lock) && k in Keys(a)
    ensures k in Keys(b)
  {
    hide DriftOf, Sorted;
    var i :| 0 <= i < |a| && Keys(a)[i] == k;
    assert Keyed(a[i].key, a[i].value) in a;
    assert Keyed(k, a[i].value) in b;
    var j :| 0 <= j < |b| && b[j] == Keyed(k, a[i].value);
    assert Keys(b)[j] == k;
  }

  /** A lock just generated shows no drift, and neither does one generated from specs that differ only in
      the order their keys were written. */
  lemma FreshLockIsClean(specs: seq<Spec>, others: seq<Spec>, out: seq<Keyed<Kind>>, plain: char -> bool)
    requires |specs| == |others| && DistinctIds(specs)
    requires forall i :: 0 <= i < |specs| ==>
               specs[i].id == others[i].id && WellFormed(specs[i].json) && WellFormed(others[i].json)
               && Same(specs[i].json, others[i].json)
    requires Reports(out, LockFor(specs, plain), LockFor(others, plain))
    ensures out == []
  {
    hide Canonical, Same, WellFormed, Fnv1aHex, Utf8, SortNames, LockFor, Reports;
    var cur, lock := LockFor(specs, plain), LockFor(others, plain);
    EmptyReport(out, cur, lock);
    forall i | 0 <= i < |specs| ensures ComponentHash(specs[i], plain) == ComponentHash(others[i], plain) {
      CanonicalDecides(specs[i].json, others[i].json, plain);
    }
    forall id ensures id in cur <==> id in lock {
      LockForHolds(specs, plain, id);
      LockForHolds(others, plain, id);
      SameIds(specs, others, id);
    }
    forall id | id in cur && id in lock ensures cur[id].contentHash == lock[id].contentHash {
      LockForHolds(specs, plain, id);
      LockForHolds(others, plain, id);
      var i :| 0 <= i < |specs| && specs[i].id == id;
      assert others[i].id == id;
    }
  }

  lemma SameIds(specs: seq<Spec>, others: seq<Spec>, id: string)
    requires |specs| == |others| && forall i :: 0 <= i < |specs| ==> specs[i].id == others[i].id
    ensures (exists i :: 0 <= i < |specs| && specs[i].id == id) <==> exists i :: 0 <= i < |others| && others[i].id == id
  {
    if i :| 0 <= i < |specs| && specs[i].id == id {
      assert others[i].id == id;
    }
    if i :| 0 <= i < |others| && others[i].id == id {
      assert specs[i].id == id;
    }
  }

  /** An edit that changes one byte of a component's canonical text is reported, whatever else changed. */
  lemma OneByteEditIsReported(specs: seq<Spec>, was: seq<Spec>, i: nat, j: nat, out: seq<Keyed<Kind>>, plain: char -> bool)
    requires i < |specs| && j < |was| && specs[i].id == was[j].id && DistinctIds(specs) && DistinctIds(was)
    requires OneByteApart(SpecBytes(was[j], plain), SpecBytes(specs[i], plain))
    requires Reports(out, LockFor(specs, plain), LockFor(was, plain))
    ensures Keyed(specs[i].id, Changed) in out
  {
    hide Canonical, Fnv1aHex, Utf8, SortNames, OneByteApart, LockFor;
    OneByteShowsInHex(SpecBytes(was[j], plain), SpecBytes(specs[i], plain));
    LockForHolds(specs, plain, specs[i].id);
    LockForHolds(was, plain, specs[i].id);
    assert DriftOf(LockFor(specs, plain), LockFor(was, plain), specs[i].id) == Some(Changed);
  }

  /** The same told of the text: one ASCII character of the canonical text replaced by another. */
  lemma OneAsciiCharIsOneByte(p: string, c: char, d: char, s: string)
    requires c != d && c as int < 0x80 && d as int < 0x80
    ensures OneByteApart(Utf8(p + [c] + s), Utf8(p + [d] + s))
  {
    hide Utf8, OneByteApart;
    Utf8Concat(p + [c], s);
    Utf8Concat(p + [d], s);
    Utf8Concat(p, [c]);
    Utf8Concat(p, [d]);
    AsciiIsOneByte(c);
    AsciiIsOneByte(d);
    ReplaceOne(Utf8(p), c as int, d as int, Utf8(s));
  }

  lemma AsciiIsOneByte(c: char)
    requires c as int < 0x80
    ensures Utf8([c]) == [c as int]
  {
    assert [c][1..] == [];
  }

  lemma {:induction false} Utf8Concat(a: string, b: string)
    ensures Utf8(a + b) == Utf8(a) + Utf8(b)
  {
    hide Utf8Char;
    if a == [] {
      assert a + b == b;
    } else {
      assert (a + b)[1..] == a[1..] + b;
      Utf8Concat(a[1..], b);
    }
  }
}
