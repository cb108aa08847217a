/** A section of the config as the line editor sees it: raw lines, cut into items by their dashes, that stand for a
    list of entries; and what inserting or deleting lines does to it. */
module SectionItems {
  import opened Collections
  import opened YamlLines

  // ------------------------------------------------------------ entries in lines

  /** What identifies an entry of a section. */
  datatype Entry = Entry(source: Option<string>, pin: Option<string>, subDir: Option<string>)

  const NOTHING := Entry(None, None, None)

  function Or(a: Option<string>, b: Option<string>): Option<string> {
    if a.Some? then a else b
  }

  /** The first field of each kind wins. */
  function Then(a: Entry, b: Entry): Entry {
    Entry(Or(a.source, b.source), Or(a.pin, b.pin), Or(a.subDir, b.subDir))
  }

  function OfField(f: Field): Entry {
    match f
    case Source(v) => Entry(Some(v), None, None)
    case Pin(v) => Entry(None, Some(v), None)
    case SubDir(v) => Entry(None, None, Some(v))
    case NoField => NOTHING
  }

  function Fields(lines: seq<string>): Entry {
    if lines == [] then NOTHING
    else Then(Fields(lines[..|lines| - 1]), OfField(FieldOf(lines[|lines| - 1])))
  }

  lemma {:induction false} FieldsConcat(a: seq<string>, b: seq<string>)
    ensures Fields(a + b) == Then(Fields(a), Fields(b))
    decreases |b|
  {
    hide FieldOf;
    if b == [] {
      assert a + b == a;
    } else {
      var n := |b| - 1;
      assert (a + b)[..|a + b| - 1] == a + b[..n];
      FieldsConcat(a, b[..n]);
    }
  }

  lemma {:induction false} NoFields(lines: seq<string>)
    requires forall i :: 0 <= i < |lines| ==> FieldOf(lines[i]) == NoField
    ensures Fields(lines) == NOTHING
  {
    hide FieldOf;
    if lines != [] {
      NoFields(lines[..|lines| - 1]);
    }
  }

  lemma OneField(line: string)
    ensures Fields([line]) == OfField(FieldOf(line))
  {
    hide FieldOf;
    assert [line][..0] == [];
  }

  // ------------------------------------------------------------ items in a section

  predicate IsStart(line: string, d: nat) { IsDash(line) && IndentOf(line) == d }

  function Least(a: Option<nat>, b: Option<nat>): Option<nat> {
    if a.None? then b else if b.None? then a else if a.value <= b.value then a else b
  }

  /** The indentation of the shallowest dash. */
  function MinDash(body: seq<string>): Option<nat> {
    if body == [] then None
    else
      var last := body[|body| - 1];
      Least(MinDash(body[..|body| - 1]), if IsDash(last) then Some(IndentOf(last)) else None)
  }

  lemma {:induction false} MinDashConcat(a: seq<string>, b: seq<string>)
    ensures MinDash(a + b) == Least(MinDash(a), MinDash(b))
    decreases |b|
  {
    hide IsDash, IndentOf;
    if b == [] {
      assert a + b == a;
    } else {
      var n := |b| - 1;
      assert (a + b)[..|a + b| - 1] == a + b[..n];
      MinDashConcat(a, b[..n]);
    }
  }

  lemma {:induction false} MinDashIs(body: seq<string>)
    ensures MinDash(body).None? <==> forall i :: 0 <= i < |body| ==> !IsDash(body[i])
    ensures MinDash(body).Some? ==>
      && (exists i :: 0 <= i < |body| && IsStart(body[i], MinDash(body).value))
      && forall i :: 0 <= i < |body| && IsDash(body[i]) ==> MinDash(body).value <= IndentOf(body[i])
  {
    hide IsDash, IndentOf;
    if body != [] {
      var n := |body| - 1;
      MinDashIs(body[..n]);
      assert forall i :: 0 <= i < n ==> body[..n][i] == body[i];
      if MinDash(body).Some? {
        if IsDash(body[n]) && MinDash(body) == Some(IndentOf(body[n])) {
          assert IsStart(body[n], MinDash(body).value);
        } else {
          var i :| 0 <= i < n && IsStart(body[..n][i], MinDash(body[..n]).value);
          assert IsStart(body[i], MinDash(body).value);
        }
      }
    }
  }

  /** A section cut into the lines before its first item and the lines of each item. */
  datatype Chunks = Chunks(pre: seq<string>, items: seq<seq<string>>)

  function Flat(items: seq<seq<string>>): seq<string> {
    if items == [] then [] else Flat(items[..|items| - 1]) + items[|items| - 1]
  }

  function AddLine(c: Chunks, line: string, d: nat): Chunks {
    if IsStart(line, d) then Chunks(c.pre, c.items + [[line]])
    else if c.items == [] then Chunks(c.pre + [line], [])
    else Chunks(c.pre, c.items[|c.items| - 1 := c.items[|c.items| - 1] + [line]])
  }

  function Chunked(body: seq<string>, d: nat): Chunks {
    if body == [] then Chunks([], [])
    else AddLine(Chunked(body[..|body| - 1], d), body[|body| - 1], d)
  }

  ghost predicate NoStart(lines: seq<string>, d: nat) {
    forall i :: 0 <= i < |lines| ==> !IsStart(lines[i], d)
  }

  ghost predicate WellItem(item: seq<string>, d: nat) {
    item != [] && IsStart(item[0], d) && NoStart(item[1..], d)
  }

  ghost predicate WellChunked(c: Chunks, d: nat) {
    NoStart(c.pre, d) && forall k :: 0 <= k < |c.items| ==> WellItem(c.items[k], d)
  }

  lemma FlatLast(items: seq<seq<string>>, item: seq<string>)
    ensures Flat(items + [item]) == Flat(items) + item
  {
    assert (items + [item])[..|items|] == items;
  }

  lemma {:induction false} FlatConcat(a: seq<seq<string>>, b: seq<seq<string>>)
    ensures Flat(a + b) == Flat(a) + Flat(b)
    decreases |b|
  {
    if b == [] {
      assert a + b == a;
    } else {
      var n := |b| - 1;
      FlatConcat(a, b[..n]);
      assert (a + b)[..|a + b| - 1] == a + b[..n];
    }
  }

  lemma AddLineKeeps(c: Chunks, line: string, d: nat)
    requires WellChunked(c, d)
    ensures WellChunked(AddLine(c, line, d), d)
    ensures AddLine(c, line, d).pre + Flat(AddLine(c, line, d).items) == c.pre + Flat(c.items) + [line]
  {
    hide IsStart;
    var r := AddLine(c, line, d);
    if IsStart(line, d) {
      FlatLast(c.items, [line]);
      assert [line][1..] == [];
    } else if c.items != [] {
      var n := |c.items| - 1;
      assert c.items == c.items[..n] + [c.items[n]] && r.items == c.items[..n] + [c.items[n] + [line]];
      FlatLast(c.items[..n], c.items[n]);
      FlatLast(c.items[..n], c.items[n] + [line]);
      assert (c.items[n] + [line])[1..] == c.items[n][1..] + [line];
    }
  }

  lemma {:induction false} ChunkedIsWell(body: seq<string>, d: nat)
    ensures WellChunked(Chunked(body, d), d)
    ensures Chunked(body, d).pre + Flat(Chunked(body, d).items) == body
  {
    hide IsStart, AddLine, WellItem;
    if body != [] {
      var n := |body| - 1;
      ChunkedIsWell(body[..n], d);
      AddLineKeeps(Chunked(body[..n], d), body[n], d);
    }
  }

  lemma ChunkedStep(body: seq<string>, line: string, d: nat)
    ensures Chunked(body + [line], d) == AddLine(Chunked(body, d), line, d)
  {
    assert (body + [line])[..|body|] == body;
  }

  lemma AddLineToPre(pre: seq<string>, line: string, d: nat)
    requires !IsStart(line, d)
    ensures AddLine(Chunks(pre, []), line, d) == Chunks(pre + [line], [])
  {
    hide IsStart;
  }

  lemma {:induction false} ChunkedPre(pre: seq<string>, d: nat)
    requires NoStart(pre, d)
    ensures Chunked(pre, d) == Chunks(pre, [])
  {
    hide IsStart, AddLine;
    if pre != [] {
      var n := |pre| - 1;
      ChunkedPre(pre[..n], d);
      AddLineToPre(pre[..n], pre[n], d);
      ChunkedStep(pre[..n], pre[n], d);
      assert pre == pre[..n] + [pre[n]];
    }
  }

  lemma {:induction false} ChunkedItem(body: seq<string>, item: seq<string>, d: nat)
    requires WellItem(item, d)
    ensures Chunked(body + item, d) == Chunks(Chunked(body, d).pre, Chunked(body, d).items + [item])
    decreases |item|
  {
    hide IsStart, Chunked;
    var n := |item| - 1;
    var init, line := item[..n], item[n];
    ChunkedStep(body + init, line, d);
    assert body + item == body + init + [line];
    if n == 0 {
      assert body + init == body && item == [line];
    } else {
      assert forall i :: 0 <= i < n - 1 ==> init[1..][i] == item[1..][i];
      ChunkedItem(body, init, d);
      assert item[1..][n - 1] == line;
      var c := Chunked(body, d);
      assert item == init + [line];
      assert (c.items + [init])[|c.items| := init + [line]] == c.items + [item];
    }
  }

  /** Cutting is the inverse of putting together: the cut is the only well-formed one. */
  lemma {:induction false} ChunkedUnique(c: Chunks, d: nat)
    requires WellChunked(c, d)
    ensures Chunked(c.pre + Flat(c.items), d) == c
    decreases |c.items|
  {
    hide IsStart, Chunked, WellItem, AddLine;
    if c.items == [] {
      ChunkedPre(c.pre, d);
      assert c.pre + Flat([]) == c.pre;
    } else {
      var m := |c.items| - 1;
      ChunkedUnique(Chunks(c.pre, c.items[..m]), d);
      ChunkedItem(c.pre + Flat(c.items[..m]), c.items[m], d);
      assert c.pre + Flat(c.items) == c.pre + Flat(c.items[..m]) + c.items[m];
    }
  }

  function Items(body: seq<string>): Chunks {
    if MinDash(body).None? then Chunks(body, []) else Chunked(body, MinDash(body).value)
  }

  function EntriesOf(items: seq<seq<string>>): (r: seq<Entry>)
    ensures |r| == |items| && forall k :: 0 <= k < |items| ==> r[k] == Fields(items[k])
  {
    seq(|items|, k requires 0 <= k < |items| => Fields(items[k]))
  }

  /** The list of entries a section's lines stand for. */
  function Entries(body: seq<string>): seq<Entry> { EntriesOf(Items(body).items) }

  /** If a section has a dash, its shallowest dashes start its items, and it has at least one. */
  lemma ItemsAre(body: seq<string>)
    ensures Items(body).pre + Flat(Items(body).items) == body
    ensures MinDash(body).None? <==> Items(body).items == []
    ensures MinDash(body).Some? ==> WellChunked(Items(body), MinDash(body).value)
  {
    hide IsDash, IndentOf, MinDash, Chunked, IsStart;
    MinDashIs(body);
    if MinDash(body).Some? {
      var d := MinDash(body).value;
      ChunkedIsWell(body, d);
      var c := Chunked(body, d);
      assert c.items == [] ==> body == c.pre + [];
    }
  }

  /** No dash is shallower than `d`. */
  ghost predicate NoShallower(lines: seq<string>, d: nat) {
    forall i :: 0 <= i < |lines| && IsDash(lines[i]) ==> d <= IndentOf(lines[i])
  }

  lemma NoShallowerConcat(a: seq<string>, b: seq<string>, d: nat)
    ensures NoShallower(a + b, d) <==> NoShallower(a, d) && NoShallower(b, d)
  {
    hide IsDash, IndentOf;
    var ab := a + b;
    if NoShallower(ab, d) {
      assert forall i :: 0 <= i < |a| ==> ab[i] == a[i];
      assert forall i :: 0 <= i < |b| ==> ab[|a| + i] == b[i];
    }
  }

  /** The other way round: lines put together from items at indentation `d`, with no shallower dash,
      stand for those items. */
  lemma ItemsFrom(c: Chunks, d: nat)
    requires WellChunked(c, d) && c.items != []
    requires NoShallower(c.pre + Flat(c.items), d)
    ensures MinDash(c.pre + Flat(c.items)) == Some(d)
    ensures Items(c.pre + Flat(c.items)) == c
  {
    hide IsDash, IndentOf, MinDash, Chunked;
    var body := c.pre + Flat(c.items);
    ChunkedUnique(c, d);
    MinDashIs(body);
    var m := |c.items| - 1;
    assert WellItem(c.items[m], d);
    var i := |c.pre| + |Flat(c.items[..m])|;
    assert body[i] == c.items[m][0];
    assert IsStart(body[i], d);
  }

  // ----------------------------------------------------- inserting and removing

  /** The place after the last line before `n` that is neither blank nor a comment. */
  function TrimBack(body: seq<string>, n: nat): (at: nat)
    requires n <= |body|
    ensures at <= n && (at > 0 ==> !IsQuiet(body[at - 1]))
    ensures forall i :: at <= i < n ==> IsQuiet(body[i])
  {
    if n > 0 && IsQuiet(body[n - 1]) then TrimBack(body, n - 1) else n
  }

  function InsertAt(body: seq<string>): (at: nat)
    ensures at <= |body|
  {
    if Items(body).items == [] then 0 else TrimBack(body, |body|)
  }

  function IndentFor(body: seq<string>): nat {
    if MinDash(body).Some? then MinDash(body).value else 2
  }

  function WithBlock(body: seq<string>, block: seq<string>): seq<string> {
    body[..InsertAt(body)] + block + body[InsertAt(body)..]
  }

  /** The lines of one item at indentation `d` that stands for `e`. */
  ghost predicate IsBlock(block: seq<string>, d: nat, e: Entry) {
    WellItem(block, d) && NoShallower(block, d) && Fields(block) == e
  }

  lemma QuietTail(tail: seq<string>, d: nat)
    requires forall i :: 0 <= i < |tail| ==> IsQuiet(tail[i])
    ensures NoStart(tail, d) && NoShallower(tail, d) && Fields(tail) == NOTHING
  {
    hide IsDash, IsQuiet, FieldOf, IndentOf;
    forall i | 0 <= i < |tail| ensures !IsDash(tail[i]) && FieldOf(tail[i]) == NoField {
      QuietIsHarmless(tail[i]);
    }
    NoFields(tail);
  }

  lemma StartIsNotQuiet(line: string, d: nat)
    requires IsStart(line, d)
    ensures !IsQuiet(line)
  {
    hide IsDash, IsQuiet, FieldOf, IndentOf;
    if IsQuiet(line) {
      QuietIsHarmless(line);
    }
  }

  lemma WellItemAppend(item: seq<string>, tail: seq<string>, d: nat)
    requires WellItem(item, d) && NoStart(tail, d)
    ensures WellItem(item + tail, d)
  {
    hide IsStart;
    assert (item + tail)[1..] == item[1..] + tail;
  }

  lemma WellItemPrefix(item: seq<string>, n: nat, d: nat)
    requires WellItem(item, d) && 0 < n <= |item|
    ensures WellItem(item[..n], d)
  {
    hide IsStart;
    assert item[..n][1..] == item[1..][..n - 1];
  }

  lemma AppendFields(item: seq<string>, tail: seq<string>)
    requires Fields(tail) == NOTHING
    ensures Fields(item + tail) == Fields(item)
  {
    hide Fields;
    FieldsConcat(item, tail);
  }

  /** The insertion point falls inside the last item, after its content. */
  lemma LastItemSplits(body: seq<string>) returns (core: seq<string>, tail: seq<string>)
    requires MinDash(body).Some?
    ensures Items(body).items != []
    ensures var c, m := Items(body), |Items(body).items| - 1;
      && c.items[m] == core + tail && body[..InsertAt(body)] == c.pre + Flat(c.items[..m]) + core
    ensures tail == body[InsertAt(body)..] && body == body[..InsertAt(body)] + tail
    ensures WellItem(core, MinDash(body).value)
    ensures NoStart(tail, MinDash(body).value) && Fields(tail) == NOTHING
  {
    hide MinDash, Fields, Chunked, IsDash, IndentOf, IsQuiet, NoShallower, Items, WellItem, NoStart;
    ItemsAre(body);
    var c, d, at := Items(body), MinDash(body).value, InsertAt(body);
    var m := |c.items| - 1;
    var last := c.items[m];
    var k := |c.pre| + |Flat(c.items[..m])|;
    assert body == c.pre + Flat(c.items[..m]) + last;
    WellItemStarts(last, d);
    StartIsNotQuiet(last[0], d);
    assert body[k] == last[0];
    assert at > k;
    core, tail := last[..at - k], body[at..];
    QuietTail(tail, d);
    WellItemPrefix(last, at - k, d);
  }

  lemma TwoItems(c: Chunks, core: seq<string>, second: seq<string>, d: nat)
    requires WellChunked(c, d) && c.items != [] && WellItem(core, d) && WellItem(second, d)
    ensures var m := |c.items| - 1; var items := c.items[..m] + [core] + [second];
      && WellChunked(Chunks(c.pre, items), d)
      && c.pre + Flat(items) == c.pre + Flat(c.items[..m]) + core + second
  {
    hide WellItem, NoStart, Flat;
    var m := |c.items| - 1;
    FlatLast(c.items[..m] + [core], second);
    FlatLast(c.items[..m], core);
  }

  /** Inserting after the last item's content appends one item; the blank and comment lines that trailed
      the last item now trail the new one. */
  lemma InsertAppends(body: seq<string>, block: seq<string>, e: Entry)
    requires MinDash(body).Some? && IsBlock(block, IndentFor(body), e)
    ensures MinDash(WithBlock(body, block)) == MinDash(body)
    ensures Entries(WithBlock(body, block)) == Entries(body) + [e]
    ensures |Items(WithBlock(body, block)).items| == |Items(body).items| + 1
    ensures Items(WithBlock(body, block)).items[|Items(body).items|] == block + body[InsertAt(body)..]
  {
    hide MinDash, Fields, Chunked, IsDash, IndentOf, IsQuiet, NoShallower, Items, WellItem, NoStart, InsertAt, Flat;
    var d, c, before := MinDash(body).value, Items(body), body[..InsertAt(body)];
    ItemsAre(body);
    var core, tail := LastItemSplits(body);
    var m := |c.items| - 1;
    WellItemAppend(block, tail, d);
    AppendFields(core, tail);
    AppendFields(block, tail);
    TwoItems(c, core, block + tail, d);
    var items := c.items[..m] + [core] + [block + tail];
    assert WithBlock(body, block) == c.pre + Flat(c.items[..m]) + core + (block + tail);
    MinDashBounds(body);
    NoShallowerConcat(before, tail, d);
    NoShallowerConcat(block, tail, d);
    NoShallowerConcat(before, block + tail, d);
    ItemsFrom(Chunks(c.pre, items), d);
    assert EntriesOf(items) == EntriesOf(c.items) + [e];
  }

  lemma WellItemStarts(item: seq<string>, d: nat)
    requires WellItem(item, d)
    ensures item != [] && IsStart(item[0], d)
  {
  }

  lemma MinDashBounds(body: seq<string>)
    ensures MinDash(body).Some? ==> NoShallower(body, MinDash(body).value)
    ensures MinDash(body).None? ==> forall d :: NoStart(body, d) && NoShallower(body, d)
  {
    hide IsDash, IndentOf, MinDash;
    MinDashIs(body);
  }

  /** Into a section without items the block goes first, and the lines already there become part of it. */
  lemma InsertFirst(body: seq<string>, block: seq<string>, e: Entry)
    requires MinDash(body).None? && IsBlock(block, IndentFor(body), e)
    ensures InsertAt(body) == 0 && WithBlock(body, block) == block + body
    ensures Entries(WithBlock(body, block)) == [Then(e, Fields(body))]
    ensures Items(WithBlock(body, block)) == Chunks([], [block + body])
  {
    hide MinDash, Fields, Chunked, IsDash, IndentOf, NoShallower, WellItem, NoStart;
    ItemsAre(body);
    MinDashBounds(body);
    WellItemAppend(block, body, 2);
    NoShallowerConcat(block, body, 2);
    var c := Chunks([], [block + body]);
    FlatLast([], block + body);
    assert [] + [block + body] == [block + body];
    assert c.pre + Flat(c.items) == block + body;
    assert NoStart([], 2) by { NoStartEmpty(2); }
    ItemsFrom(c, 2);
    FieldsConcat(block, body);
  }

  lemma NoStartEmpty(d: nat)
    ensures NoStart([], d)
  {
  }

  function Without<T>(s: seq<T>, k: nat): seq<T>
    requires k < |s|
  {
    s[..k] + s[k + 1..]
  }

  /** The section's lines after item `k` is deleted. */
  function WithoutItem(body: seq<string>, k: nat): seq<string>
    requires k < |Items(body).items|
  {
    Items(body).pre + Flat(Without(Items(body).items, k))
  }

  lemma FlatWithout(items: seq<seq<string>>, k: nat)
    requires k < |items|
    ensures Flat(items) == Flat(items[..k]) + items[k] + Flat(items[k + 1..])
    ensures Flat(Without(items, k)) == Flat(items[..k]) + Flat(items[k + 1..])
  {
    hide Flat;
    FlatLast(items[..k], items[k]);
    CutAt(items, k);
    FlatConcat(items[..k] + [items[k]], items[k + 1..]);
    FlatConcat(items[..k], items[k + 1..]);
  }

  /** Deleting item `k` deletes exactly entry `k`, except when it was the only item and deeper dashes
      stand before it, which then become items themselves. */
  lemma RemoveDeletes(body: seq<string>, k: nat)
    requires k < |Items(body).items|
    ensures Entries(WithoutItem(body, k)) == Without(Entries(body), k)
       <==> |Items(body).items| >= 2 || MinDash(Items(body).pre).None?
  {
    hide MinDash, Fields, Chunked, IsDash, IndentOf, NoShallower, WellItem, NoStart, Items, Flat;
    ItemsAre(body);
    var c := Items(body);
    var d := MinDash(body).value;
    if |c.items| >= 2 {
      var r := Chunks(c.pre, Without(c.items, k));
      FlatWithout(c.items, k);
      MinDashBounds(body);
      RemovedIsNoShallower(c.pre, Flat(c.items[..k]), c.items[k], Flat(c.items[k + 1..]), d, body);
      assert r.pre + Flat(r.items) == c.pre + Flat(c.items[..k]) + Flat(c.items[k + 1..]);
      ItemsFrom(r, d);
      assert EntriesOf(r.items) == Without(EntriesOf(c.items), k);
    } else {
      assert Without(c.items, k) == [];
      FlatEmpty();
      assert WithoutItem(body, k) == c.pre;
      ItemsAre(c.pre);
      assert Without(Entries(body), k) == [];
    }
  }

  lemma FlatEmpty()
    ensures Flat([]) == []
  {
  }

  lemma RemovedIsNoShallower(a: seq<string>, b: seq<string>, x: seq<string>, y: seq<string>, d: nat, body: seq<string>)
    requires body == a + (b + x + y) && NoShallower(body, d)
    ensures NoShallower(a + b + y, d)
  {
    hide NoShallower;
    assert body == a + b + x + y;
    NoShallowerConcat(a + b + x, y, d);
    NoShallowerConcat(a + b, x, d);
    NoShallowerConcat(a + b, y, d);
  }

  /** Blank lines and comments at the end change no entry. */
  lemma QuietAppend(body: seq<string>, tail: seq<string>)
    requires forall i :: 0 <= i < |tail| ==> IsQuiet(tail[i])
    ensures Entries(body + tail) == Entries(body)
  {
    hide MinDash, Fields, Chunked, IsDash, IndentOf, IsQuiet, NoShallower, WellItem, NoStart, Items, Flat;
    ItemsAre(body);
    ItemsAre(body + tail);
    MinDashConcat(body, tail);
    QuietHasNoDash(tail);
    if MinDash(body).Some? {
      var d, c := MinDash(body).value, Items(body);
      var m := |c.items| - 1;
      QuietTail(tail, d);
      MinDashBounds(body);
      NoShallowerConcat(body, tail, d);
      WellItemAppend(c.items[m], tail, d);
      AppendFields(c.items[m], tail);
      var r := Chunks(c.pre, c.items[..m] + [c.items[m] + tail]);
      FlatLast(c.items[..m], c.items[m]);
      FlatLast(c.items[..m], c.items[m] + tail);
      assert c.items == c.items[..m] + [c.items[m]];
      assert r.pre + Flat(r.items) == body + tail;
      ItemsFrom(r, d);
      assert EntriesOf(r.items) == EntriesOf(c.items);
    } else {
      assert Entries(body) == [] == Entries(body + tail);
    }
  }

  lemma QuietHasNoDash(tail: seq<string>)
    requires forall i :: 0 <= i < |tail| ==> IsQuiet(tail[i])
    ensures MinDash(tail) == None
  {
    hide IsDash, IsQuiet, FieldOf, IndentOf, MinDash;
    MinDashIs(tail);
    forall i | 0 <= i < |tail| ensures !IsDash(tail[i]) {
      QuietIsHarmless(tail[i]);
    }
  }

  /** The new item lands at the very end of the section exactly when the section is empty, or has items
      and does not end in a blank or comment line. */
  lemma InsertAtEnd(body: seq<string>)
    ensures InsertAt(body) == |body| <==> body == [] || (MinDash(body).Some? && !IsQuiet(body[|body| - 1]))
  {
    hide MinDash, Items, IsQuiet;
    ItemsAre(body);
    if MinDash(body).Some? {
      var core, tail := LastItemSplits(body);
      HasLines(body);
    }
  }

  lemma HasLines(body: seq<string>)
    ensures MinDash(body).Some? ==> body != []
  {
  }

  /** Deleting a freshly inserted item gives the section back when it had landed at the very end. */
  lemma RemoveInserted(body: seq<string>, block: seq<string>, e: Entry)
    requires IsBlock(block, IndentFor(body), e)
    ensures var k := |Items(body).items|; var r := WithBlock(body, block);
      && k < |Items(r).items| && |Items(r).items| == k + 1
      && (WithoutItem(r, k) == body <==> InsertAt(body) == |body|)
      && WithoutItem(r, k) == body[..InsertAt(body)]
  {
    hide MinDash, Fields, Chunked, IsDash, IndentOf, IsQuiet, NoShallower, Items, WellItem, NoStart, InsertAt, Flat;
    ItemsAre(body);
    var at, k := InsertAt(body), |Items(body).items|;
    var r := WithBlock(body, block);
    ItemsAre(r);
    if MinDash(body).Some? {
      InsertAppends(body, block, e);
    } else {
      InsertFirst(body, block, e);
    }
    var c := Items(r);
    assert c.items[k] == block + body[at..];
    FlatWithout(c.items, k);
    assert c.items[k + 1..] == [];
    FlatEmpty();
    assert Flat(Without(c.items, k)) == Flat(c.items[..k]);
    var x := block + body[at..];
    assert Flat(c.items) == Flat(c.items[..k]) + x;
    assert r == c.pre + Flat(c.items[..k]) + x;
    assert r == body[..at] + x;
    SameSuffix(c.pre + Flat(c.items[..k]), body[..at], block + body[at..]);
  }

  lemma SameSuffix<T>(a: seq<T>, b: seq<T>, s: seq<T>)
    requires a + s == b + s
    ensures a == b
  {
    assert |a| == |b|;
    assert a == (a + s)[..|a|];
    assert b == (b + s)[..|b|];
  }
}
