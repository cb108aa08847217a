/** The line level of the config editor: white space and quotes, the recognisers for top-level keys, dashes
    and `key: value` fields, and how the lines of a new item are read back by them. */
module YamlLines {
  import opened Collections

  // ------------------------------------------------------------------ strings

  /** The characters with Unicode's White_Space property. */
  predicate IsSpace(c: char) {
    var n := c as int;
    9 <= n <= 13 || n == 0x20 || n == 0x85 || n == 0xA0 || n == 0x1680 || 0x2000 <= n <= 0x200A
    || n == 0x2028 || n == 0x2029 || n == 0x202F || n == 0x205F || n == 0x3000
  }

  function TrimStart(s: string): string {
    if s != [] && IsSpace(s[0]) then TrimStart(s[1..]) else s
  }

  function TrimEnd(s: string): string {
    if s != [] && IsSpace(s[|s| - 1]) then TrimEnd(s[..|s| - 1]) else s
  }

  function Trim(s: string): string { TrimEnd(TrimStart(s)) }

  function StripStart(s: string, c: char): string {
    if s != [] && s[0] == c then StripStart(s[1..], c) else s
  }

  function StripEnd(s: string, c: char): string {
    if s != [] && s[|s| - 1] == c then StripEnd(s[..|s| - 1], c) else s
  }

  function Strip(s: string, c: char): string { StripEnd(StripStart(s, c), c) }

  /** The first place of `c` in `s`, or the end. */
  function Find(s: string, c: char): (i: nat)
    ensures i <= |s|
    ensures i < |s| ==> s[i] == c
    ensures forall j :: 0 <= j < i ==> s[j] != c
  {
    if s == [] || s[0] == c then 0 else 1 + Find(s[1..], c)
  }

  predicate HasSpace(s: string) { exists i :: 0 <= i < |s| && IsSpace(s[i]) }

  function Spaces(n: nat): (s: string)
    ensures |s| == n && forall i :: 0 <= i < n ==> s[i] == ' '
  {
    if n == 0 then "" else " " + Spaces(n - 1)
  }

  lemma {:induction false} FindIs(s: string, c: char, i: nat)
    requires i <= |s| && (i < |s| ==> s[i] == c) && forall j :: 0 <= j < i ==> s[j] != c
    ensures Find(s, c) == i
  {
  }

  lemma {:induction false} TrimStartPadded(n: nat, s: string)
    ensures TrimStart(Spaces(n) + s) == TrimStart(s)
  {
    if n == 0 {
      assert Spaces(n) + s == s;
    } else {
      assert (Spaces(n) + s)[1..] == Spaces(n - 1) + s;
      TrimStartPadded(n - 1, s);
    }
  }

  lemma {:induction false} TrimEndIsPrefix(s: string)
    ensures |TrimEnd(s)| <= |s| && TrimEnd(s) == s[..|TrimEnd(s)|]
    ensures TrimEnd(s) != [] ==> !IsSpace(TrimEnd(s)[|TrimEnd(s)| - 1])
    decreases |s|
  {
    hide IsSpace;
    if s != [] && IsSpace(s[|s| - 1]) {
      TrimEndIsPrefix(s[..|s| - 1]);
    }
  }

  lemma {:induction false} TrimEndKeeps(s: string, i: nat)
    requires i < |s| && !IsSpace(s[i])
    ensures i < |TrimEnd(s)|
    decreases |s|
  {
    if IsSpace(s[|s| - 1]) {
      TrimEndKeeps(s[..|s| - 1], i);
    }
  }

  /** A bare word: what the recognisers accept as a key. */
  predicate Word(s: string) {
    s != [] && !HasSpace(s) && ':' !in s
  }

  lemma TrimWord(s: string)
    requires s != [] && !HasSpace(s)
    ensures Trim(s) == s && TrimStart(s) == s
  {
    assert !IsSpace(s[0]) && !IsSpace(s[|s| - 1]);
  }

  // -------------------------------------------------------------- recognisers

  /** A first character no top-level key line has. */
  predicate IsNested(c: char) { c == ' ' || c == '\t' || c == '#' || c == '-' }

  /** The key of a mapping line at column 0, if the line is one. */
  function TopLevelKey(line: string): Option<string> {
    if line != [] && IsNested(line[0]) then None
    else
      var t := TrimEnd(line);
      var colon := Find(t, ':');
      if colon == |t| || colon == 0 || HasSpace(t[..colon]) then None else Some(t[..colon])
  }

  /** What follows `key:` on its line. */
  function InlineValue(line: string, key: string): Option<string> {
    var t := TrimEnd(line);
    if |t| < |key| || t[..|key|] != key then None
    else
      var rest := TrimStart(t[|key|..]);
      if rest != [] && rest[0] == ':' then Some(Trim(rest[1..])) else None
  }

  function IndentOf(line: string): nat {
    if line != [] && line[0] == ' ' then 1 + IndentOf(line[1..]) else 0
  }

  predicate DashSpace(t: string) { |t| >= 2 && t[0] == '-' && t[1] == ' ' }

  predicate IsDash(line: string) {
    var t := TrimStart(line);
    DashSpace(t) || (|t| == 1 && t[0] == '-')
  }

  /** A blank line or a comment. */
  predicate IsQuiet(line: string) {
    var t := TrimStart(line);
    t == [] || t[0] == '#'
  }

  function Unquoted(s: string): string { Strip(Strip(Trim(s), '"'), '\'') }

  /** `key: value` read from a text without its dash. */
  function KeyValue(t: string): Option<(string, string)> {
    var colon := Find(t, ':');
    if colon == |t| then None
    else
      var key := Trim(t[..colon]);
      if key == [] || HasSpace(key) then None else Some((key, Unquoted(t[colon + 1..])))
  }

  /** The field of a line, with or without a leading dash. */
  function FieldKv(line: string): Option<(string, string)> {
    var t := TrimStart(line);
    if DashSpace(t) then KeyValue(TrimStart(t[2..]))
    else if |t| == 1 && t[0] == '-' then None
    else KeyValue(t)
  }

  /** Which of an entry's three identifying fields a line gives. */
  datatype Field = Source(value: string) | Pin(value: string) | SubDir(value: string) | NoField

  function FieldNamed(kv: Option<(string, string)>): Field {
    if kv.None? then NoField
    else if kv.value.0 == "source" then Source(kv.value.1)
    else if kv.value.0 == "ref" || kv.value.0 == "branch" then Pin(kv.value.1)
    else if kv.value.0 == "sub-dir" || kv.value.0 == "sub_dir" then SubDir(kv.value.1)
    else NoField
  }

  function FieldOf(line: string): Field { FieldNamed(FieldKv(line)) }

  // --------------------------------------------------- how new lines read back

  /** A text that is read back as itself: no line break, and no space or quotes at its ends. */
  predicate CleanValue(v: string) { '\n' !in v && Unquoted(v) == v && TrimEnd(v) == v }

  lemma {:induction false} IndentOfPadded(n: nat, t: string)
    requires t != [] && t[0] != ' '
    ensures IndentOf(Spaces(n) + t) == n
  {
    if n == 0 {
      assert Spaces(n) + t == t;
    } else {
      assert (Spaces(n) + t)[1..] == Spaces(n - 1) + t;
      IndentOfPadded(n - 1, t);
    }
  }

  lemma KeyValueReads(key: string, v: string)
    requires Word(key)
    ensures KeyValue(key + ":" + v) == Some((key, Unquoted(v)))
  {
    hide Unquoted, Trim, Find, HasSpace;
    var t := key + ":" + v;
    assert t[|key|] == ':' && forall j :: 0 <= j < |key| ==> t[j] == key[j];
    FindIs(t, ':', |key|);
    assert t[..|key|] == key && t[|key| + 1..] == v;
    TrimWord(key);
  }

  lemma SpaceIsTrimmed(v: string)
    ensures Unquoted(" " + v) == Unquoted(v)
  {
    hide Strip, TrimStart, TrimEnd;
    OneSpace();
    TrimStartPadded(1, v);
  }

  lemma OneSpace()
    ensures Spaces(1) == " "
  {
  }

  /** A padded line that starts with a word is no dash, no top-level key, and reads as its field. */
  lemma PaddedField(n: nat, key: string, v: string)
    requires n > 0 && Word(key) && key[0] != '-' && key[0] != '#'
    ensures var line := Spaces(n) + (key + ":" + v);
      && !IsDash(line) && !IsQuiet(line) && TopLevelKey(line) == None
      && FieldKv(line) == Some((key, Unquoted(v)))
  {
    hide Unquoted, KeyValue, IsSpace, TrimStart, TopLevelKey;
    var t := key + ":" + v;
    KeyValueReads(key, v);
    TrimStartPadded(n, t);
    WordStarts(key);
    assert t[0] == key[0];
    TrimStartDone(t);
    assert (Spaces(n) + t)[0] == ' ';
    NestedIsNoKey(Spaces(n) + t);
  }

  lemma MarksAreNoSpace()
    ensures !IsSpace(':') && !IsSpace('-') && !IsSpace('#') && IsSpace(' ')
  {
  }

  lemma NestedIsNoKey(line: string)
    requires line != [] && IsNested(line[0])
    ensures TopLevelKey(line) == None
  {
  }

  lemma EmptyHasNoKey()
    ensures KeyValue("") == None
  {
  }

  lemma TrimStartDone(s: string)
    requires s != [] && !IsSpace(s[0])
    ensures TrimStart(s) == s
  {
  }

  lemma WordStarts(key: string)
    requires Word(key)
    ensures !IsSpace(key[0])
  {
  }

  /** A padded line that starts with a dash. */
  lemma PaddedDash(n: nat, rest: string)
    ensures var line := Spaces(n) + ("- " + rest);
      && IsDash(line) && IndentOf(line) == n && !IsQuiet(line) && TopLevelKey(line) == None
      && FieldKv(line) == KeyValue(TrimStart(rest))
  {
    hide KeyValue, IsSpace, TrimStart, IndentOf, TopLevelKey;
    var d := "- " + rest;
    TrimStartPadded(n, d);
    IndentOfPadded(n, d);
    MarksAreNoSpace();
    assert d[0] == '-' && d[1] == ' ' && d[2..] == rest;
    TrimStartDone(d);
    assert (Spaces(n) + d)[0] == if n == 0 then '-' else ' ';
    NestedIsNoKey(Spaces(n) + d);
  }

  /** The first line of an item. */
  lemma DashedField(n: nat, key: string, v: string)
    requires Word(key)
    ensures var line := Spaces(n) + ("- " + (key + ":" + v));
      && IsDash(line) && IndentOf(line) == n && !IsQuiet(line) && TopLevelKey(line) == None
      && FieldKv(line) == Some((key, Unquoted(v)))
  {
    hide Unquoted, KeyValue, IsSpace, IsDash, IsQuiet, TopLevelKey, FieldKv, IndentOf;
    var t := key + ":" + v;
    KeyValueReads(key, v);
    PaddedDash(n, t);
    assert t[0] == key[0];
    WordStarts(key);
    assert TrimStart(t) == t;
  }

  /** A name in an item's selector list. */
  lemma DashedName(n: nat, name: string)
    requires n > 0
    ensures var line := Spaces(n) + ("- " + name);
      && IsDash(line) && IndentOf(line) == n && TopLevelKey(line) == None
      && FieldOf(line) == FieldOf("- " + name)
  {
    hide KeyValue, IsSpace, IsDash, IsQuiet, TopLevelKey, FieldKv, IndentOf;
    PaddedDash(n, name);
    PaddedDash(0, name);
    assert Spaces(0) + ("- " + name) == "- " + name;
  }

  /** Blank lines and comments carry no dash and no field. */
  lemma QuietIsHarmless(line: string)
    requires IsQuiet(line)
    ensures !IsDash(line) && FieldOf(line) == NoField
  {
    hide Unquoted, IsSpace, TrimStart, KeyValue;
    var t := TrimStart(line);
    EmptyHasNoKey();
    MarksAreNoSpace();
    if t != [] && KeyValue(t).Some? {
      assert t[0] == '#';
      KeyStartsWith(t);
    }
  }

  lemma KeyStartsWith(t: string)
    requires t != [] && !IsSpace(t[0]) && t[0] != ':' && KeyValue(t).Some?
    ensures KeyValue(t).value.0 != [] && KeyValue(t).value.0[0] == t[0]
  {
    hide Unquoted, IsSpace;
    var colon := Find(t, ':');
    assert t[..colon][0] == t[0];
    assert TrimStart(t[..colon]) == t[..colon];
    TrimEndIsPrefix(t[..colon]);
  }

  lemma TopLevelShape(line: string, key: string)
    requires TopLevelKey(line) == Some(key)
    ensures Word(key)
    ensures var t := TrimEnd(line); |key| < |t| && t[..|key|] == key && t[|key|] == ':'
  {
    hide IsSpace, TrimEnd, HasSpace;
    var t := TrimEnd(line);
    var colon := Find(t, ':');
    assert key == t[..colon];
  }

  lemma InlineOf(line: string, key: string, t: string)
    requires t == TrimEnd(line) && |key| < |t| && t[..|key|] == key && t[|key|] == ':'
    ensures InlineValue(line, key) == Some(Trim(t[|key| + 1..]))
  {
    hide IsSpace, TrimStart, TrimEnd, Trim;
    var rest := t[|key|..];
    assert rest[0] == ':';
    MarksAreNoSpace();
    TrimStartDone(rest);
    assert rest[1..] == t[|key| + 1..];
  }

  /** A top-level key line starts with that key and a colon, so it always has an inline value. */
  lemma TopLevelLine(line: string, key: string)
    requires TopLevelKey(line) == Some(key)
    ensures Word(key) && InlineValue(line, key).Some?
  {
    hide *;
    TopLevelShape(line, key);
    InlineOf(line, key, TrimEnd(line));
  }

  /** The block header `key:`. */
  lemma BareHeader(key: string)
    requires Word(key) && !IsNested(key[0])
    ensures TopLevelKey(key + ":") == Some(key)
    ensures InlineValue(key + ":", key) == Some("")
  {
    hide IsSpace, TrimEnd, HasSpace;
    var line := key + ":";
    MarksAreNoSpace();
    TrimEndDone(line);
    FindIs(line, ':', |key|);
    assert line[..|key|] == key;
    InlineOf(line, key, line);
    assert line[|key| + 1..] == "";
    assert Trim("") == "" by { TrimEmpty(); }
  }

  lemma TrimEmpty()
    ensures Trim("") == ""
  {
  }

  lemma TrimEndDone(s: string)
    requires s != [] && !IsSpace(s[|s| - 1])
    ensures TrimEnd(s) == s
  {
  }
}
