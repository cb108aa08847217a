/** The very text and bytes that are hashed, and what a report says, told with the characters themselves. */
module SpecText {
  import opened Collections
  import opened StringOrder
  import opened CanonicalJson
  import opened SpecHash
  import opened SpecLock

  // ---------------------------------------------------------- the canonical text

  /** Quotes, backslashes, line breaks, tabs and zeros are escaped by a letter, other characters that do not
      print by their number. */
  lemma EscapesAs(c: char, plain: char -> bool)
    ensures EscapeChar('"', plain) == "\\\"" && EscapeChar('\\', plain) == "\\\\"
    ensures EscapeChar('\n', plain) == "\\n" && EscapeChar('\r', plain) == "\\r"
    ensures EscapeChar('\t', plain) == "\\t" && EscapeChar('\0', plain) == "\\0"
    ensures c !in "\"\\\n\r\t\0" ==> EscapeChar(c, plain) == if plain(c) then [c] else "\\u{" + Hex(c as int) + "}"
  {
    hide Hex;
    var special := "\"\\\n\r\t\0";
    assert special[0] == '"' && special[1] == '\\' && special[2] == '\n' && special[3] == '\r' && special[4] == '\t' && special[5] == '\0';
  }

  lemma {:induction false} EscapeConcat(s: string, t: string, plain: char -> bool)
    ensures Escape(s + t, plain) == Escape(s, plain) + Escape(t, plain)
  {
    hide EscapeChar;
    if s == "" {
      assert s + t == t;
    } else {
      assert (s + t)[1..] == s[1..] + t;
      EscapeConcat(s[1..], t, plain);
    }
  }

  lemma TwoItems(x: Json, y: Json, plain: char -> bool)
    ensures CanonicalItems([x, y], plain) == [Canonical(x, plain), Canonical(y, plain)]
  {
    hide Canonical;
    assert [x, y][1..] == [y] && [y][1..] == [];
    assert CanonicalItems([y], plain) == [Canonical(y, plain)];
  }

  lemma ArrayForm(x: Json, y: Json, plain: char -> bool)
    ensures Canonical(Arr([x, y]), plain) == "[" + Canonical(x, plain) + "," + Canonical(y, plain) + "]"
  {
    TwoItems(x, y, plain);
    JoinedTwo(Canonical(x, plain), Canonical(y, plain));
    ArrayIs([x, y], plain);
    assert "[" + (Canonical(x, plain) + "," + Canonical(y, plain)) + "]" == "[" + Canonical(x, plain) + "," + Canonical(y, plain) + "]";
  }

  lemma ArrayIs(items: seq<Json>, plain: char -> bool)
    ensures Canonical(Arr(items), plain) == "[" + Joined(CanonicalItems(items, plain)) + "]"
  {
  }

  lemma ObjectIs(fields: seq<Field>, plain: char -> bool)
    ensures Canonical(Obj(fields), plain) == "{" + Joined(CanonicalFields(Obj(fields), SortKeyed(fields), plain)) + "}"
  {
  }

  lemma JoinedTwo(a: string, b: string)
    ensures Joined([a, b]) == a + "," + b && Joined([]) == ""
  {
    assert [a, b][1..] == [b] && [b][1..] == [];
    assert [a, b][..1] == [a] && [a][..0] == [];
  }

  function FieldText(f: Field, plain: char -> bool): string {
    "\"" + Escape(f.key, plain) + "\":" + Canonical(f.value, plain)
  }

  lemma TwoFields(v: Json, f: Field, g: Field, plain: char -> bool)
    requires v.Obj? && f in v.fields && g in v.fields
    ensures forall h :: h in [f, g] ==> h in v.fields
    ensures CanonicalFields(v, [f, g], plain) == [FieldText(f, plain), FieldText(g, plain)]
  {
    hide Canonical, Escape;
    assert [f, g][1..] == [g] && [g][1..] == [];
    assert CanonicalFields(v, [g], plain) == [Quote(g.key, plain) + [':'] + Canonical(g.value, plain)];
    QuoteColon(f.key, plain);
    QuoteColon(g.key, plain);
  }

  lemma QuoteColon(k: string, plain: char -> bool)
    ensures Quote(k, plain) + [':'] == "\"" + Escape(k, plain) + "\":"
  {
    hide Escape;
  }

  lemma SortTwo(f: Field, g: Field)
    requires Less(f.key, g.key)
    ensures SortKeyed([f, g]) == [f, g] && SortKeyed([g, f]) == [f, g]
  {
    hide Less;
    LessIsAsymmetric(f.key, g.key);
    assert [f, g][1..] == [g] && [g, f][1..] == [f] && [f][1..] == [] && [g][1..] == [];
    assert SortKeyed([f]) == [f] && SortKeyed([g]) == [g];
    assert InsertKeyed(f, [g]) == [f, g];
    assert InsertKeyed(g, [f]) == [f] + InsertKeyed(g, []);
  }

  lemma ObjectForm(fields: seq<Field>, f: Field, g: Field, plain: char -> bool)
    requires SortKeyed(fields) == [f, g]
    ensures Canonical(Obj(fields), plain) == "{" + FieldText(f, plain) + "," + FieldText(g, plain) + "}"
  {
    hide Escape, Canonical, FieldText, CanonicalFields;
    assert f in [f, g] && g in [f, g];
    TwoFields(Obj(fields), f, g, plain);
    JoinedTwo(FieldText(f, plain), FieldText(g, plain));
    ObjectIs(fields, plain);
    assert "{" + (FieldText(f, plain) + "," + FieldText(g, plain)) + "}" == "{" + FieldText(f, plain) + "," + FieldText(g, plain) + "}";
  }

  /** Constants, numbers and texts as JSON writes them, arrays in brackets, objects in braces with their keys in
      ascending order, and commas between. */
  lemma TextForms(s: string, x: Json, y: Json, k: string, l: string, plain: char -> bool)
    ensures Canonical(Null, plain) == "null" && Canonical(Bool(true), plain) == "true" && Canonical(Bool(false), plain) == "false"
    ensures Canonical(Num(s), plain) == s && Canonical(Str(s), plain) == "\"" + Escape(s, plain) + "\""
    ensures Canonical(Arr([]), plain) == "[]" && Canonical(Obj([]), plain) == "{}"
    ensures Canonical(Arr([x, y]), plain) == "[" + Canonical(x, plain) + "," + Canonical(y, plain) + "]"
    ensures Less(k, l) ==>
      Canonical(Obj([Keyed(l, y), Keyed(k, x)]), plain) == Canonical(Obj([Keyed(k, x), Keyed(l, y)]), plain) ==
        "{" + FieldText(Keyed(k, x), plain) + "," + FieldText(Keyed(l, y), plain) + "}"
  {
    hide Escape, Less, FieldText, CanonicalItems, CanonicalFields, SortKeyed;
    ArrayForm(x, y, plain);
    ArrayIs([], plain);
    NoItems(plain);
    if Less(k, l) {
      SortTwo(Keyed(k, x), Keyed(l, y));
      ObjectForm([Keyed(l, y), Keyed(k, x)], Keyed(k, x), Keyed(l, y), plain);
      ObjectForm([Keyed(k, x), Keyed(l, y)], Keyed(k, x), Keyed(l, y), plain);
    }
  }

  lemma NoItems(plain: char -> bool)
    ensures Canonical(Arr([]), plain) == "[]" && Canonical(Obj([]), plain) == "{}"
  {
    JoinedTwo("", "");
  }

  /** One text comes before another when it is a proper beginning of it, or has the smaller character where they
      first differ. */
  ghost predicate Before(a: string, b: string) {
    || (|a| < |b| && a == b[..|a|])
    || exists i :: 0 <= i < |a| && i < |b| && a[..i] == b[..i] && a[i] < b[i]
  }

  lemma BeforeTail(a: string, b: string)
    requires a != "" && b != ""
    ensures Before(a, b) <==> a[0] < b[0] || (a[0] == b[0] && Before(a[1..], b[1..]))
  {
    var x, y := a[1..], b[1..];
    assert a == [a[0]] + x && b == [b[0]] + y;
    if a[0] == b[0] && Before(x, y) {
      if i :| 0 <= i < |x| && i < |y| && x[..i] == y[..i] && x[i] < y[i] {
        assert a[..i + 1] == [a[0]] + x[..i] && b[..i + 1] == [b[0]] + y[..i];
        assert a[i + 1] < b[i + 1];
      } else {
        assert b[..|a|] == [b[0]] + y[..|x|];
      }
    }
    if a[0] < b[0] { assert a[..0] == b[..0]; }
    if Before(a, b) {
      if i :| 0 <= i < |a| && i < |b| && a[..i] == b[..i] && a[i] < b[i] {
        if i > 0 {
          assert a[0] == a[..i][0] == b[..i][0] == b[0];
          assert x[..i - 1] == a[..i][1..] && y[..i - 1] == b[..i][1..];
          assert x[i - 1] < y[i - 1];
        }
      } else {
        assert a[0] == b[..|a|][0];
        assert x == b[..|a|][1..] == y[..|x|];
      }
    }
  }

  lemma {:induction false} OrderIs(a: string, b: string)
    ensures Less(a, b) <==> Before(a, b)
  {
    hide Before;
    BeforeEmpty(a, b);
    if a != "" && b != "" {
      BeforeTail(a, b);
      OrderIs(a[1..], b[1..]);
    }
  }

  lemma BeforeEmpty(a: string, b: string)
    ensures b == "" ==> !Before(a, b)
    ensures a == "" && b != "" ==> Before(a, b)
  {
  }

  // -------------------------------------------------------------------- bytes

  /** The low bits of a byte. */
  function Low(b: byte, m: nat): nat
    requires m > 0
  {
    b as int % m
  }

  /** What a follow-up byte and the lead bytes carry. */
  lemma Carries(q: nat)
    ensures q < 64 ==> Low(0x80 + q, 64) == q && 0x80 <= 0x80 + q < 0xC0
    ensures q < 32 ==> Low(0xC0 + q, 32) == q
    ensures q < 16 ==> Low(0xE0 + q, 16) == q
    ensures q < 8 ==> Low(0xF0 + q, 8) == q
  {
  }

  lemma SixBits(n: nat)
    ensures n == n / 64 * 64 + n % 64 && n % 64 < 64
    ensures n / 64 == n / 4096 * 64 + n / 64 % 64
    ensures n / 4096 == n / 262144 * 64 + n / 4096 % 64
  {
    assert n / 64 / 64 == n / 4096 && n / 4096 / 64 == n / 262144;
  }

  /** The bytes are the character's UTF-8 form (section 3 of RFC 3629): the lead byte tells how many follow, and
      each of those carries six bits. */
  lemma Utf8Reads(c: char)
    ensures var n, b := c as int, Utf8Char(c);
      match |b|
      case 1 => b[0] == n < 0x80
      case 2 => 0xC0 <= b[0] < 0xE0 && n == Low(b[0], 32) * 64 + Low(b[1], 64) && n >= 0x80
      case 3 => 0xE0 <= b[0] < 0xF0 && n == Low(b[0], 16) * 4096 + Low(b[1], 64) * 64 + Low(b[2], 64) && n >= 0x800
      case 4 => 0xF0 <= b[0] < 0xF8 && n == Low(b[0], 8) * 262144 + Low(b[1], 64) * 4096 + Low(b[2], 64) * 64 + Low(b[3], 64) && n >= 0x1_0000
      case _ => false
    ensures forall i :: 1 <= i < |Utf8Char(c)| ==> 0x80 <= Utf8Char(c)[i] < 0xC0
  {
    hide Low;
    var n := c as int;
    SixBits(n);
    Carries(n % 64);
    Carries(n / 64 % 64);
    Carries(n / 4096 % 64);
    if n < 0x800 { Carries(n / 64); }
    else if n < 0x1_0000 { Carries(n / 4096); }
    else { Carries(n / 262144); }
  }

  // -------------------------------------------------------------------- drift

  /** A component is reported as added when only the manifest has it, as removed when only the lock has it, and as
      changed when both do and their hashes differ. */
  lemma DriftMeans(out: seq<Keyed<Kind>>, cur: map<string, LockEntry>, lock: map<string, LockEntry>, id: string)
    requires Reports(out, cur, lock)
    ensures Keyed(id, Added) in out <==> id in cur && id !in lock
    ensures Keyed(id, Removed) in out <==> id in lock && id !in cur
    ensures Keyed(id, Changed) in out <==> id in cur && id in lock && cur[id].contentHash != lock[id].contentHash
  {
    hide Sorted;
  }
}
