/** The canonical text of JSON values: two values share it exactly when they are equal up to the order in
    which object keys were written. */
module CanonicalJson {
  import opened Collections
  import opened StringOrder

  /** A JSON value as written: an object is its fields in authoring order. Numbers are their printed token. */
  datatype Json =
    | Null
    | Bool(b: bool)
    | Num(token: string)
    | Str(s: string)
    | Arr(items: seq<Json>)
    | Obj(fields: seq<Field>)

  type Field = Keyed<Json>

  // -------------------------------------------------------------------- quoting

  function HexDigit(n: nat): char
    requires n < 16
  {
    if n < 10 then ('0' as int + n) as char else ('a' as int + n - 10) as char
  }

  function Hex(n: nat): (s: string)
    ensures s != [] && forall i :: 0 <= i < |s| ==> s[i] != '}'
  {
    (if n < 16 then [] else Hex(n / 16)) + [HexDigit(n % 16)]
  }

  /** The letter after the backslash, for the characters with a short escape. */
  function ShortEscape(c: char): Option<char> {
    if c == '"' then Some('"')
    else if c == '\\' then Some('\\')
    else if c == '\n' then Some('n')
    else if c == '\r' then Some('r')
    else if c == '\t' then Some('t')
    else if c == '\0' then Some('0')
    else None
  }

  /** How `{:?}` writes one character; `plain` says which other characters it prints as they are. */
  function EscapeChar(c: char, plain: char -> bool): string {
    if ShortEscape(c).Some? then ['\\', ShortEscape(c).value]
    else if plain(c) then [c]
    else ['\\', 'u', '{'] + Hex(c as int) + ['}']
  }

  function Escape(s: string, plain: char -> bool): string {
    if s == [] then [] else EscapeChar(s[0], plain) + Escape(s[1..], plain)
  }

  function Quote(s: string, plain: char -> bool): string { ['"'] + Escape(s, plain) + ['"'] }

  lemma HeadTail<T>(c: T, s: seq<T>, d: T, t: seq<T>)
    requires [c] + s == [d] + t
    ensures c == d && s == t
  {
    assert ([c] + s)[0] == c && ([d] + t)[0] == d;
    assert ([c] + s)[1..] == s && ([d] + t)[1..] == t;
  }

  lemma LongerTokenHasMark(s: string, t: string, x: string, y: string, mark: char -> bool)
    requires s + x == t + y && |s| < |t| && (x == [] || mark(x[0]))
    ensures exists i :: 0 <= i < |t| && mark(t[i])
  {
    assert |x| > 0;
    assert (s + x)[|s|] == x[0] && (t + y)[|s|] == t[|s|];
  }

  /** Two tokens that end at the first mark are told apart. */
  lemma TokenEnds(s: string, t: string, x: string, y: string, mark: char -> bool)
    requires s + x == t + y
    requires forall i :: 0 <= i < |s| ==> !mark(s[i])
    requires forall i :: 0 <= i < |t| ==> !mark(t[i])
    requires (x == [] || mark(x[0])) && (y == [] || mark(y[0]))
    ensures s == t && x == y
  {
    if |s| < |t| {
      LongerTokenHasMark(s, t, x, y, mark);
    } else if |t| < |s| {
      LongerTokenHasMark(t, s, y, x, mark);
    } else {
      assert s == (s + x)[..|s|] && t == (t + y)[..|t|];
      assert x == (s + x)[|s|..] && y == (t + y)[|t|..];
    }
  }

  lemma {:induction false} HexInjective(a: nat, b: nat)
    requires Hex(a) == Hex(b)
    ensures a == b
  {
    var x, y := Hex(a), Hex(b);
    assert x[|x| - 1] == HexDigit(a % 16) && y[|y| - 1] == HexDigit(b % 16);
    assert x[..|x| - 1] == (if a < 16 then [] else Hex(a / 16));
    assert y[..|y| - 1] == (if b < 16 then [] else Hex(b / 16));
    if a >= 16 && b >= 16 {
      HexInjective(a / 16, b / 16);
    }
  }

  lemma UnicodeEscapeEnds(c: char, d: char, u: string, v: string)
    requires Hex(c as int) + ['}'] + u == Hex(d as int) + ['}'] + v
    ensures c == d && u == v
  {
    hide Hex;
    var x, y := ['}'] + u, ['}'] + v;
    assert Hex(c as int) + ['}'] + u == Hex(c as int) + x;
    assert Hex(d as int) + ['}'] + v == Hex(d as int) + y;
    TokenEnds(Hex(c as int), Hex(d as int), x, y, z => z == '}');
    HexInjective(c as int, d as int);
    HeadTail('}', u, '}', v);
  }

  /** The first characters of an escaped character, told without its tail. */
  lemma EscapeHead(c: char, plain: char -> bool)
    ensures EscapeChar(c, plain) != []
    ensures EscapeChar(c, plain)[0] != '"'
    ensures EscapeChar(c, plain)[0] == '\\' <==> ShortEscape(c).Some? || !plain(c)
    ensures EscapeChar(c, plain)[0] != '\\' ==> EscapeChar(c, plain) == [c]
    ensures EscapeChar(c, plain)[0] == '\\' ==>
              |EscapeChar(c, plain)| >= 2
              && EscapeChar(c, plain)[1] == if ShortEscape(c).Some? then ShortEscape(c).value else 'u'
  {
    hide Hex;
  }

  lemma EscapeCharEnds(c: char, d: char, u: string, v: string, plain: char -> bool)
    requires EscapeChar(c, plain) + u == EscapeChar(d, plain) + v
    ensures c == d && u == v
  {
    hide Hex;
    var x, y := EscapeChar(c, plain), EscapeChar(d, plain);
    EscapeHead(c, plain);
    EscapeHead(d, plain);
    assert (x + u)[0] == x[0] && (y + v)[0] == y[0];
    if x[0] != '\\' {
      HeadTail(c, u, d, v);
    } else {
      assert (x + u)[1] == x[1] && (y + v)[1] == y[1];
      if ShortEscape(c).Some? {
        assert ShortEscape(d) == ShortEscape(c);
        assert (x + u)[2..] == u && (y + v)[2..] == v;
      } else {
        assert (x + u)[3..] == Hex(c as int) + ['}'] + u;
        assert (y + v)[3..] == Hex(d as int) + ['}'] + v;
        UnicodeEscapeEnds(c, d, u, v);
      }
    }
  }

  lemma {:induction false} EscapeEnds(s: string, t: string, x: string, y: string, plain: char -> bool)
    requires Escape(s, plain) + ['"'] + x == Escape(t, plain) + ['"'] + y
    ensures s == t && x == y
    decreases |s|
  {
    hide EscapeChar;
    if s != [] {
      EscapeHead(s[0], plain);
      assert (Escape(s, plain) + ['"'] + x)[0] == EscapeChar(s[0], plain)[0];
    } else {
      assert (Escape(s, plain) + ['"'] + x)[0] == '"';
    }
    if t != [] {
      EscapeHead(t[0], plain);
      assert (Escape(t, plain) + ['"'] + y)[0] == EscapeChar(t[0], plain)[0];
    } else {
      assert (Escape(t, plain) + ['"'] + y)[0] == '"';
    }
    if s != [] && t != [] {
      var u, v := Escape(s[1..], plain) + ['"'] + x, Escape(t[1..], plain) + ['"'] + y;
      assert Escape(s, plain) + ['"'] + x == EscapeChar(s[0], plain) + u;
      assert Escape(t, plain) + ['"'] + y == EscapeChar(t[0], plain) + v;
      EscapeCharEnds(s[0], t[0], u, v, plain);
      EscapeEnds(s[1..], t[1..], x, y, plain);
      assert s == [s[0]] + s[1..] && t == [t[0]] + t[1..];
    } else if s == [] && t == [] {
      assert Escape(s, plain) + ['"'] + x == ['"'] + x;
      assert Escape(t, plain) + ['"'] + y == ['"'] + y;
      HeadTail('"', x, '"', y);
    }
  }

  /** A quoted string ends where it ends, whatever follows. */
  lemma QuoteEnds(s: string, t: string, x: string, y: string, plain: char -> bool)
    requires Quote(s, plain) + x == Quote(t, plain) + y
    ensures s == t && x == y
  {
    hide Escape;
    var u, v := Escape(s, plain) + ['"'] + x, Escape(t, plain) + ['"'] + y;
    assert Quote(s, plain) + x == ['"'] + u && Quote(t, plain) + y == ['"'] + v;
    HeadTail('"', u, '"', v);
    EscapeEnds(s, t, x, y, plain);
  }

  // ------------------------------------------------------------------- printing

  /** Characters that end a number, `null`, `true` or `false`. */
  predicate Mark(c: char) { c == ',' || c == ']' || c == '}' || c == '"' || c == '[' || c == '{' || c == ':' }

  predicate NumberToken(t: string) {
    && t != [] && ('0' <= t[0] <= '9' || t[0] == '-')
    && forall i :: 0 <= i < |t| ==> !Mark(t[i])
  }

  ghost predicate WellFormed(v: Json) {
    match v
    case Num(t) => NumberToken(t)
    case Arr(items) => forall x :: x in items ==> WellFormed(x)
    case Obj(fields) =>
      (forall i, j :: 0 <= i < j < |fields| ==> fields[i].key != fields[j].key) && forall f :: f in fields ==> WellFormed(f.value)
    case _ => true
  }

  /** The text of a value with its fields in the order they stand in. */
  function Print(v: Json, plain: char -> bool): string
    decreases v, 2
  {
    match v
    case Null => "null"
    case Bool(b) => if b then "true" else "false"
    case Num(t) => t
    case Str(s) => Quote(s, plain)
    case Arr(items) => ['['] + ItemsText(items, plain)
    case Obj(fields) => ['{'] + FieldsText(fields, plain)
  }

  /** An array's text after its opening bracket. */
  function ItemsText(items: seq<Json>, plain: char -> bool): string
    decreases items, 1
  {
    if items == [] then [']'] else Print(items[0], plain) + MoreItems(items[1..], plain)
  }

  function MoreItems(items: seq<Json>, plain: char -> bool): string
    decreases items, 0
  {
    if items == [] then [']'] else [','] + (Print(items[0], plain) + MoreItems(items[1..], plain))
  }

  function PrintField(f: Field, plain: char -> bool): string
    decreases f, 3
  {
    Quote(f.key, plain) + ([':'] + Print(f.value, plain))
  }

  function FieldsText(fields: seq<Field>, plain: char -> bool): string
    decreases fields, 1
  {
    if fields == [] then ['}'] else PrintField(fields[0], plain) + MoreFields(fields[1..], plain)
  }

  function MoreFields(fields: seq<Field>, plain: char -> bool): string
    decreases fields, 0
  {
    if fields == [] then ['}'] else [','] + (PrintField(fields[0], plain) + MoreFields(fields[1..], plain))
  }

  /** What may follow a value. */
  predicate Ends(x: string) { x == [] || x[0] == ',' || x[0] == ']' || x[0] == '}' }

  /** What a value's text starts with tells its kind. */
  lemma PrintHead(v: Json, plain: char -> bool)
    requires WellFormed(v)
    ensures Print(v, plain) != []
    ensures var c := Print(v, plain)[0];
      match v
      case Null => c == 'n'
      case Bool(b) => c == if b then 't' else 'f'
      case Num(_) => '0' <= c <= '9' || c == '-'
      case Str(_) => c == '"'
      case Arr(_) => c == '['
      case Obj(_) => c == '{'
  {
    hide Escape, ItemsText, FieldsText;
  }

  predicate IsToken(v: Json) { v.Null? || v.Bool? || v.Num? }

  lemma TokenHasNoMark(v: Json, plain: char -> bool)
    requires WellFormed(v) && IsToken(v)
    ensures forall i :: 0 <= i < |Print(v, plain)| ==> !Mark(Print(v, plain)[i])
  {
  }

  lemma SameHead(s: string, t: string, x: string, y: string)
    requires s + x == t + y && s != [] && t != []
    ensures s[0] == t[0]
  {
    assert (s + x)[0] == s[0] && (t + y)[0] == t[0];
  }

  lemma Associate(a: string, b: string, c: string)
    ensures (a + b) + c == a + (b + c)
  {
  }

  /** Unique decoding: a value's text, whatever may follow it, gives back the value and the rest. */
  lemma {:induction false} PrintEnds(a: Json, b: Json, x: string, y: string, plain: char -> bool)
    requires WellFormed(a) && WellFormed(b) && Ends(x) && Ends(y)
    requires Print(a, plain) + x == Print(b, plain) + y
    ensures a == b && x == y
    decreases a, 2
  {
    hide Quote, ItemsText, FieldsText;
    PrintHead(a, plain);
    PrintHead(b, plain);
    SameHead(Print(a, plain), Print(b, plain), x, y);
    if IsToken(a) {
      TokenHasNoMark(a, plain);
      TokenHasNoMark(b, plain);
      TokenEnds(Print(a, plain), Print(b, plain), x, y, Mark);
    } else if a.Str? {
      QuoteEnds(a.s, b.s, x, y, plain);
    } else if a.Arr? {
      Associate(['['], ItemsText(a.items, plain), x);
      Associate(['['], ItemsText(b.items, plain), y);
      HeadTail('[', ItemsText(a.items, plain) + x, '[', ItemsText(b.items, plain) + y);
      ItemsEnd(a.items, b.items, x, y, plain);
    } else {
      Associate(['{'], FieldsText(a.fields, plain), x);
      Associate(['{'], FieldsText(b.fields, plain), y);
      HeadTail('{', FieldsText(a.fields, plain) + x, '{', FieldsText(b.fields, plain) + y);
      FieldsEnd(a.fields, b.fields, x, y, plain);
    }
  }

  ghost predicate ItemsWellFormed(items: seq<Json>) { forall i :: 0 <= i < |items| ==> WellFormed(items[i]) }

  lemma {:induction false} ItemsEnd(a: seq<Json>, b: seq<Json>, x: string, y: string, plain: char -> bool)
    requires ItemsWellFormed(a) && ItemsWellFormed(b)
    requires ItemsText(a, plain) + x == ItemsText(b, plain) + y
    ensures a == b && x == y
    decreases a, 1
  {
    hide Print, MoreItems, WellFormed;
    ItemsHead(a, plain);
    ItemsHead(b, plain);
    SameHead(ItemsText(a, plain), ItemsText(b, plain), x, y);
    if a == [] {
      HeadTail(']', x, ']', y);
    } else {
      var u, v := MoreItems(a[1..], plain) + x, MoreItems(b[1..], plain) + y;
      Associate(Print(a[0], plain), MoreItems(a[1..], plain), x);
      Associate(Print(b[0], plain), MoreItems(b[1..], plain), y);
      MoreItemsHead(a[1..], x, plain);
      MoreItemsHead(b[1..], y, plain);
      PrintEnds(a[0], b[0], u, v, plain);
      MoreItemsEnd(a[1..], b[1..], x, y, plain);
      assert a == [a[0]] + a[1..] && b == [b[0]] + b[1..];
    }
  }

  lemma ItemsHead(items: seq<Json>, plain: char -> bool)
    requires ItemsWellFormed(items)
    ensures ItemsText(items, plain) != [] && (ItemsText(items, plain)[0] == ']' <==> items == [])
  {
    hide Print;
    if items != [] {
      PrintHead(items[0], plain);
    }
  }

  lemma MoreItemsHead(items: seq<Json>, x: string, plain: char -> bool)
    ensures MoreItems(items, plain) != []
    ensures MoreItems(items, plain)[0] == if items == [] then ']' else ','
    ensures Ends(MoreItems(items, plain) + x)
  {
    hide Print;
  }

  lemma {:induction false} MoreItemsEnd(a: seq<Json>, b: seq<Json>, x: string, y: string, plain: char -> bool)
    requires ItemsWellFormed(a) && ItemsWellFormed(b)
    requires MoreItems(a, plain) + x == MoreItems(b, plain) + y
    ensures a == b && x == y
    decreases a, 0
  {
    hide Print, WellFormed;
    MoreItemsHead(a, x, plain);
    MoreItemsHead(b, y, plain);
    SameHead(MoreItems(a, plain), MoreItems(b, plain), x, y);
    if a == [] {
      HeadTail(']', x, ']', y);
    } else {
      var p, q := Print(a[0], plain), Print(b[0], plain);
      var u, v := MoreItems(a[1..], plain) + x, MoreItems(b[1..], plain) + y;
      CommaThen(p, MoreItems(a[1..], plain), x);
      CommaThen(q, MoreItems(b[1..], plain), y);
      HeadTail(',', p + u, ',', q + v);
      MoreItemsHead(a[1..], x, plain);
      MoreItemsHead(b[1..], y, plain);
      PrintEnds(a[0], b[0], u, v, plain);
      MoreItemsEnd(a[1..], b[1..], x, y, plain);
      assert a == [a[0]] + a[1..] && b == [b[0]] + b[1..];
    }
  }

  lemma CommaThen(p: string, more: string, x: string)
    ensures ([','] + (p + more)) + x == [','] + (p + (more + x))
  {
    Associate([','], p + more, x);
    Associate(p, more, x);
  }

  ghost predicate FieldsWellFormed(fields: seq<Field>) { forall i :: 0 <= i < |fields| ==> WellFormed(fields[i].value) }

  lemma {:induction false} FieldEnds(f: Field, g: Field, x: string, y: string, plain: char -> bool)
    requires WellFormed(f.value) && WellFormed(g.value) && Ends(x) && Ends(y)
    requires PrintField(f, plain) + x == PrintField(g, plain) + y
    ensures f == g && x == y
    decreases f, 3
  {
    hide Print, Quote, WellFormed;
    var p, q := Print(f.value, plain), Print(g.value, plain);
    Associate(Quote(f.key, plain), [':'] + p, x);
    Associate(Quote(g.key, plain), [':'] + q, y);
    QuoteEnds(f.key, g.key, ([':'] + p) + x, ([':'] + q) + y, plain);
    Associate([':'], p, x);
    Associate([':'], q, y);
    HeadTail(':', p + x, ':', q + y);
    PrintEnds(f.value, g.value, x, y, plain);
  }

  lemma FieldsHead(fields: seq<Field>, plain: char -> bool)
    ensures FieldsText(fields, plain) != [] && (FieldsText(fields, plain)[0] == '}' <==> fields == [])
  {
    hide Print, Escape;
  }

  lemma MoreFieldsHead(fields: seq<Field>, x: string, plain: char -> bool)
    ensures MoreFields(fields, plain) != []
    ensures MoreFields(fields, plain)[0] == if fields == [] then '}' else ','
    ensures Ends(MoreFields(fields, plain) + x)
  {
    hide Print;
  }

  lemma {:induction false} FieldsEnd(a: seq<Field>, b: seq<Field>, x: string, y: string, plain: char -> bool)
    requires FieldsWellFormed(a) && FieldsWellFormed(b)
    requires FieldsText(a, plain) + x == FieldsText(b, plain) + y
    ensures a == b && x == y
    decreases a, 1
  {
    hide Print, PrintField, MoreFields, WellFormed;
    FieldsHead(a, plain);
    FieldsHead(b, plain);
    SameHead(FieldsText(a, plain), FieldsText(b, plain), x, y);
    if a == [] {
      HeadTail('}', x, '}', y);
    } else {
      var u, v := MoreFields(a[1..], plain) + x, MoreFields(b[1..], plain) + y;
      Associate(PrintField(a[0], plain), MoreFields(a[1..], plain), x);
      Associate(PrintField(b[0], plain), MoreFields(b[1..], plain), y);
      MoreFieldsHead(a[1..], x, plain);
      MoreFieldsHead(b[1..], y, plain);
      FieldEnds(a[0], b[0], u, v, plain);
      MoreFieldsEnd(a[1..], b[1..], x, y, plain);
      assert a == [a[0]] + a[1..] && b == [b[0]] + b[1..];
    }
  }

  lemma {:induction false} MoreFieldsEnd(a: seq<Field>, b: seq<Field>, x: string, y: string, plain: char -> bool)
    requires FieldsWellFormed(a) && FieldsWellFormed(b)
    requires MoreFields(a, plain) + x == MoreFields(b, plain) + y
    ensures a == b && x == y
    decreases a, 0
  {
    hide Print, PrintField, WellFormed;
    MoreFieldsHead(a, x, plain);
    MoreFieldsHead(b, y, plain);
    SameHead(MoreFields(a, plain), MoreFields(b, plain), x, y);
    if a == [] {
      HeadTail('}', x, '}', y);
    } else {
      var p, q := PrintField(a[0], plain), PrintField(b[0], plain);
      var u, v := MoreFields(a[1..], plain) + x, MoreFields(b[1..], plain) + y;
      CommaThen(p, MoreFields(a[1..], plain), x);
      CommaThen(q, MoreFields(b[1..], plain), y);
      HeadTail(',', p + u, ',', q + v);
      MoreFieldsHead(a[1..], x, plain);
      MoreFieldsHead(b[1..], y, plain);
      FieldEnds(a[0], b[0], u, v, plain);
      MoreFieldsEnd(a[1..], b[1..], x, y, plain);
      assert a == [a[0]] + a[1..] && b == [b[0]] + b[1..];
    }
  }

  // ---------------------------------------------------------- the canonical text

  function Joined(parts: seq<string>): string {
    if parts == [] then [] else if |parts| == 1 then parts[0] else parts[0] + [','] + Joined(parts[1..])
  }

  /** The canonical text: object keys sorted at every level, arrays in order. */
  function Canonical(v: Json, plain: char -> bool): string
    decreases v, 0
  {
    match v
    case Obj(fields) => ['{'] + Joined(CanonicalFields(v, SortKeyed(fields), plain)) + ['}']
    case Arr(items) => ['['] + Joined(CanonicalItems(items, plain)) + [']']
    case Str(s) => Quote(s, plain)
    case _ => Print(v, plain)
  }

  function CanonicalItems(items: seq<Json>, plain: char -> bool): seq<string>
    decreases items, 0
  {
    if items == [] then [] else [Canonical(items[0], plain)] + CanonicalItems(items[1..], plain)
  }

  function CanonicalFields(v: Json, fs: seq<Field>, plain: char -> bool): seq<string>
    requires v.Obj? && forall f :: f in fs ==> f in v.fields
    decreases v, 0, |fs|
  {
    if fs == [] then []
    else
      assert fs[0] in v.fields;
      [Quote(fs[0].key, plain) + [':'] + Canonical(fs[0].value, plain)] + CanonicalFields(v, fs[1..], plain)
  }

  /** The same value with the fields of every object in sorted order. */
  function Normal(v: Json): Json
    decreases v, 0
  {
    match v
    case Obj(fields) => Obj(NormalFields(v, SortKeyed(fields)))
    case Arr(items) => Arr(NormalItems(items))
    case _ => v
  }

  function NormalItems(items: seq<Json>): (r: seq<Json>)
    ensures |r| == |items| && forall i :: 0 <= i < |items| ==> r[i] == Normal(items[i])
    decreases items, 0
  {
    if items == [] then [] else [Normal(items[0])] + NormalItems(items[1..])
  }

  function NormalFields(v: Json, fs: seq<Field>): (r: seq<Field>)
    requires v.Obj? && forall f :: f in fs ==> f in v.fields
    ensures |r| == |fs| && forall i :: 0 <= i < |fs| ==> fs[i] in v.fields && r[i] == Keyed(fs[i].key, Normal(fs[i].value))
    decreases v, 0, |fs|
  {
    if fs == [] then []
    else
      assert fs[0] in v.fields;
      [Keyed(fs[0].key, Normal(fs[0].value))] + NormalFields(v, fs[1..])
  }

  lemma {:induction false} NormalIsWellFormed(v: Json)
    requires WellFormed(v)
    ensures WellFormed(Normal(v))
    decreases v
  {
    match v {
      case Arr(items) =>
        forall i | 0 <= i < |items| ensures WellFormed(Normal(items[i])) {
          assert items[i] in items;
          NormalIsWellFormed(items[i]);
        }
      case Obj(fields) =>
        var sorted, r := SortKeyed(fields), NormalFields(v, SortKeyed(fields));
        forall i | 0 <= i < |sorted| ensures WellFormed(r[i].value) {
          assert sorted[i] in fields;
          NormalIsWellFormed(sorted[i].value);
        }
        SortIsSorted(fields);
        forall i, j | 0 <= i < j < |r| ensures r[i].key != r[j].key {
          assert Less(Keys(sorted)[i], Keys(sorted)[j]);
          LessIsStrict(r[i].key);
        }
      case _ =>
    }
  }

  // ---- the canonical text is the text of the normal form

  lemma {:induction false} CanonicalIsPrint(v: Json, plain: char -> bool)
    ensures Canonical(v, plain) == Print(Normal(v), plain)
    decreases v, 0
  {
    hide Quote, SortKeyed, Joined, ItemsText, FieldsText;
    match v {
      case Arr(items) =>
        JoinedItems(items, plain);
        Associate(['['], Joined(CanonicalItems(items, plain)), [']']);
      case Obj(fields) =>
        JoinedFields(v, SortKeyed(fields), plain);
        Associate(['{'], Joined(CanonicalFields(v, SortKeyed(fields), plain)), ['}']);
      case _ =>
    }
  }

  lemma {:induction false} JoinedItems(items: seq<Json>, plain: char -> bool)
    ensures Joined(CanonicalItems(items, plain)) + [']'] == ItemsText(NormalItems(items), plain)
    ensures items != [] ==> [','] + (Joined(CanonicalItems(items, plain)) + [']']) == MoreItems(NormalItems(items), plain)
    decreases items, 0
  {
    hide Print, Canonical, Normal;
    if items != [] {
      CanonicalIsPrint(items[0], plain);
      JoinedItems(items[1..], plain);
      var first, rest := Canonical(items[0], plain), CanonicalItems(items[1..], plain);
      assert ([first] + rest)[1..] == rest;
      assert NormalItems(items)[1..] == NormalItems(items[1..]);
      if rest != [] {
        JoinStep(first, rest, [']']);
      }
    }
  }

  lemma JoinStep(first: string, rest: seq<string>, end: string)
    requires rest != []
    ensures Joined([first] + rest) + end == first + ([','] + (Joined(rest) + end))
  {
    assert ([first] + rest)[1..] == rest;
    assert first + [','] + Joined(rest) + end == first + ([','] + (Joined(rest) + end));
  }

  lemma {:induction false} JoinedFields(v: Json, fs: seq<Field>, plain: char -> bool)
    requires v.Obj? && forall f :: f in fs ==> f in v.fields
    ensures Joined(CanonicalFields(v, fs, plain)) + ['}'] == FieldsText(NormalFields(v, fs), plain)
    ensures fs != [] ==> [','] + (Joined(CanonicalFields(v, fs, plain)) + ['}']) == MoreFields(NormalFields(v, fs), plain)
    decreases v, 0, |fs|
  {
    hide Print, Canonical, Normal, Quote;
    if fs != [] {
      assert fs[0] in v.fields;
      CanonicalIsPrint(fs[0].value, plain);
      JoinedFields(v, fs[1..], plain);
      var first, rest := Quote(fs[0].key, plain) + [':'] + Canonical(fs[0].value, plain), CanonicalFields(v, fs[1..], plain);
      Associate(Quote(fs[0].key, plain), [':'], Canonical(fs[0].value, plain));
      assert ([first] + rest)[1..] == rest;
      assert NormalFields(v, fs)[1..] == NormalFields(v, fs[1..]);
      if rest != [] {
        JoinStep(first, rest, ['}']);
      }
    }
  }

  // ---- equality up to the order of object keys

  /** Equal up to the order in which the keys of objects, at any depth, were written. */
  ghost predicate Same(a: Json, b: Json)
    decreases a, 0
  {
    match (a, b)
    case (Arr(x), Arr(y)) => |x| == |y| && forall i :: 0 <= i < |x| ==> Same(x[i], y[i])
    case (Obj(x), Obj(y)) => (forall f :: f in x ==> FoundIn(f, y)) && (forall g :: g in y ==> Finds(x, g))
    case _ => a == b
  }

  ghost predicate FoundIn(f: Field, y: seq<Field>)
    decreases f, 0
  {
    exists g :: g in y && f.key == g.key && Same(f.value, g.value)
  }

  ghost predicate Finds(x: seq<Field>, g: Field)
    decreases x, 0
  {
    exists f :: f in x && f.key == g.key && Same(f.value, g.value)
  }

  lemma OneFieldPerKey(fields: seq<Field>, f: Field, g: Field)
    requires DistinctKeys(fields) && f in fields && g in fields && f.key == g.key
    ensures f == g
  {
    var i :| 0 <= i < |fields| && fields[i] == f;
    var j :| 0 <= j < |fields| && fields[j] == g;
  }

  lemma {:induction false} SameIsNormalEqual(a: Json, b: Json)
    requires WellFormed(a) && WellFormed(b)
    ensures Same(a, b) <==> Normal(a) == Normal(b)
    decreases a
  {
    match (a, b) {
      case (Arr(x), Arr(y)) => SameItems(a, b);
      case (Obj(x), Obj(y)) =>
        if Same(a, b) {
          SameFieldsSort(a, b);
        }
        if Normal(a) == Normal(b) {
          SortedFieldsSame(a, b);
        }
      case _ =>
    }
  }

  lemma {:induction false} SameItems(a: Json, b: Json)
    requires a.Arr? && b.Arr? && WellFormed(a) && WellFormed(b)
    ensures Same(a, b) <==> Normal(a) == Normal(b)
    decreases a, 0
  {
    var x, y := a.items, b.items;
    forall i | 0 <= i < |x| && i < |y| ensures Same(x[i], y[i]) <==> Normal(x[i]) == Normal(y[i]) {
      assert x[i] in x && y[i] in y;
      SameIsNormalEqual(x[i], y[i]);
    }
    if |x| == |y| && forall i :: 0 <= i < |x| ==> Normal(x[i]) == Normal(y[i]) {
      assert NormalItems(x) == NormalItems(y);
    }
  }

  lemma SameObjects(a: Json, b: Json)
    requires a.Obj? && b.Obj?
    ensures Same(a, b) <==> (forall f :: f in a.fields ==> FoundIn(f, b.fields)) && (forall g :: g in b.fields ==> Finds(a.fields, g))
  {
    hide FoundIn, Finds;
  }

  lemma FieldKey(fields: seq<Field>, f: Field)
    requires f in fields
    ensures f.key in Keys(fields)
  {
    var i :| 0 <= i < |fields| && fields[i] == f;
    assert Keys(fields)[i] == f.key;
  }

  lemma KeyField(fields: seq<Field>, k: string) returns (f: Field)
    requires k in Keys(fields)
    ensures f in fields && f.key == k
  {
    var i :| 0 <= i < |fields| && Keys(fields)[i] == k;
    f := fields[i];
  }

  /** The partner of a field in an object that is the same. */
  lemma Partner(a: Json, b: Json, f: Field) returns (g: Field)
    requires a.Obj? && b.Obj? && Same(a, b) && f in a.fields
    ensures g in b.fields && f.key == g.key && Same(f.value, g.value)
  {
    assert FoundIn(f, b.fields);
    g :| g in b.fields && f.key == g.key && Same(f.value, g.value);
  }

  lemma PartnerBack(a: Json, b: Json, g: Field) returns (f: Field)
    requires a.Obj? && b.Obj? && Same(a, b) && g in b.fields
    ensures f in a.fields && f.key == g.key && Same(f.value, g.value)
  {
    assert Finds(a.fields, g);
    f :| f in a.fields && f.key == g.key && Same(f.value, g.value);
  }

  lemma SortedHas(fields: seq<Field>, f: Field)
    ensures f in SortKeyed(fields) <==> f in fields
  {
  }

  lemma SameKeys(a: Json, b: Json)
    requires a.Obj? && b.Obj? && Same(a, b)
    ensures forall k :: k in Keys(SortKeyed(a.fields)) <==> k in Keys(SortKeyed(b.fields))
  {
    hide *;
    forall k | k in Keys(SortKeyed(a.fields)) ensures k in Keys(SortKeyed(b.fields)) {
      var f := KeyField(SortKeyed(a.fields), k);
      SortedHas(a.fields, f);
      var g := Partner(a, b, f);
      SortedHas(b.fields, g);
      FieldKey(SortKeyed(b.fields), g);
    }
    forall k | k in Keys(SortKeyed(b.fields)) ensures k in Keys(SortKeyed(a.fields)) {
      var g := KeyField(SortKeyed(b.fields), k);
      SortedHas(b.fields, g);
      var f := PartnerBack(a, b, g);
      SortedHas(a.fields, f);
      FieldKey(SortKeyed(a.fields), f);
    }
  }

  /** A field of one object and the field of the same key in the other hold the same value. */
  lemma PairedValues(a: Json, b: Json, f: Field, g: Field)
    requires a.Obj? && b.Obj? && WellFormed(b) && Same(a, b) && f in a.fields && g in b.fields && f.key == g.key
    ensures Same(f.value, g.value)
  {
    hide *;
    var h := Partner(a, b, f);
    DistinctOf(b);
    OneFieldPerKey(b.fields, h, g);
  }

  lemma DistinctOf(v: Json)
    requires v.Obj? && WellFormed(v)
    ensures DistinctKeys(v.fields) && forall f :: f in v.fields ==> WellFormed(f.value)
  {
  }

  /** Objects that are the same have the same sorted keys, with values of equal normal form. */
  lemma {:induction false} SameFieldsSort(a: Json, b: Json)
    requires a.Obj? && b.Obj? && WellFormed(a) && WellFormed(b) && Same(a, b)
    ensures Normal(a) == Normal(b)
    decreases a, 0
  {
    hide SortKeyed, Same, WellFormed, Normal;
    var x, y := SortKeyed(a.fields), SortKeyed(b.fields);
    DistinctOf(a);
    DistinctOf(b);
    SortIsSorted(a.fields);
    SortIsSorted(b.fields);
    SameKeys(a, b);
    SortedIsUnique(Keys(x), Keys(y));
    assert |x| == |Keys(x)| && |y| == |Keys(y)|;
    forall i | 0 <= i < |x| ensures x[i].key == y[i].key && Normal(x[i].value) == Normal(y[i].value) {
      assert Keys(x)[i] == Keys(y)[i];
      assert x[i] in a.fields && y[i] in b.fields;
      PairedValues(a, b, x[i], y[i]);
      SameIsNormalEqual(x[i].value, y[i].value);
    }
    EqualNormals(a, b);
  }

  lemma EqualNormals(a: Json, b: Json)
    requires a.Obj? && b.Obj?
    ensures var x, y := SortKeyed(a.fields), SortKeyed(b.fields);
      Normal(a) == Normal(b) <==>
        |x| == |y| && forall i :: 0 <= i < |x| ==> x[i].key == y[i].key && Normal(x[i].value) == Normal(y[i].value)
  {
    hide SortKeyed, NormalFields;
    var x, y := SortKeyed(a.fields), SortKeyed(b.fields);
    var p, q := NormalFields(a, x), NormalFields(b, y);
    if p == q {
      forall i | 0 <= i < |x| ensures x[i].key == y[i].key && Normal(x[i].value) == Normal(y[i].value) {
        assert p[i] == q[i];
      }
    }
    if |x| == |y| && forall i :: 0 <= i < |x| ==> x[i].key == y[i].key && Normal(x[i].value) == Normal(y[i].value) {
      assert p == q;
    }
  }

  lemma {:induction false} SortedFieldsSame(a: Json, b: Json)
    requires a.Obj? && b.Obj? && WellFormed(a) && WellFormed(b) && Normal(a) == Normal(b)
    ensures Same(a, b)
    decreases a, 0
  {
    hide SortKeyed, Same, WellFormed, Normal;
    var x, y := SortKeyed(a.fields), SortKeyed(b.fields);
    DistinctOf(a);
    DistinctOf(b);
    EqualNormals(a, b);
    forall i | 0 <= i < |x| ensures x[i].key == y[i].key && Same(x[i].value, y[i].value) {
      assert x[i] in a.fields && y[i] in b.fields;
      SameIsNormalEqual(x[i].value, y[i].value);
    }
    forall f | f in a.fields ensures FoundIn(f, b.fields) {
      var i := PlaceOf(x, f);
      assert y[i] in b.fields;
    }
    forall g | g in b.fields ensures Finds(a.fields, g) {
      var i := PlaceOf(y, g);
      assert x[i] in a.fields;
    }
    SameObjects(a, b);
  }

  lemma PlaceOf<T>(s: seq<T>, x: T) returns (i: nat)
    requires x in s
    ensures i < |s| && s[i] == x
  {
    i :| 0 <= i < |s| && s[i] == x;
  }

  /** The canonical text decides equality up to key order: it forgets nothing but the order in which keys
      were written, and it does forget that. */
  lemma CanonicalDecides(a: Json, b: Json, plain: char -> bool)
    requires WellFormed(a) && WellFormed(b)
    ensures Canonical(a, plain) == Canonical(b, plain) <==> Same(a, b)
  {
    hide *;
    CanonicalIsPrint(a, plain);
    CanonicalIsPrint(b, plain);
    SameIsNormalEqual(a, b);
    if Canonical(a, plain) == Canonical(b, plain) {
      NormalIsWellFormed(a);
      NormalIsWellFormed(b);
      NothingEnds();
      assert Print(Normal(a), plain) + [] == Print(Normal(b), plain) + [];
      PrintEnds(Normal(a), Normal(b), [], [], plain);
    }
  }

  lemma NothingEnds()
    ensures Ends([])
  {
  }
}
