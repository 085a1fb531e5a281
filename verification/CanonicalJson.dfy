/** The canonical JSON a tool definition is hashed over, and what it determines. Text is a
    sequence of Unicode scalar values; the bytes that are hashed are its UTF-8 form. */
module CanonicalJson {
  import opened Common
  import opened Text

  // ---- values ----

  /** An integer, or a float as the JSON writer spells it (always with a '.' or an exponent). */
  datatype Number = Int(value: int) | Float(text: FloatText)

  predicate NumberChar(c: char) { IsDigit(c) || c in "+-.eE" }

  type FloatText = s: string | s != [] && (forall i :: 0 <= i < |s| ==> NumberChar(s[i]))
                               && (IsDigit(s[0]) || s[0] == '-') && ('.' in s || 'e' in s)
    witness "0.0"

  /** A parsed value; an object keeps the order its members were parsed in. */
  datatype Json =
    | Null
    | Bool(b: bool)
    | Num(n: Number)
    | Str(s: string)
    | Arr(items: seq<Json>)
    | Obj(members: seq<(string, Json)>)

  /** A value up to the order of object keys. */
  datatype Tree =
    | TNull
    | TBool(b: bool)
    | TNum(n: Number)
    | TStr(s: string)
    | TArr(items: seq<Tree>)
    | TObj(members: map<string, Tree>)

  /** The members as a map; a repeated key keeps its last value. */
  function Collected(ms: seq<(string, Json)>): (m: map<string, Json>)
    ensures forall k :: k in m ==> exists i :: 0 <= i < |ms| && ms[i] == (k, m[k])
  {
    if ms == [] then map[]
    else
      var last := |ms| - 1;
      var m := Collected(ms[..last]);
      assert forall k :: k in m ==> exists i :: 0 <= i < |ms| && ms[i] == (k, m[k]) by {
        forall k | k in m ensures exists i :: 0 <= i < |ms| && ms[i] == (k, m[k]) {
          var i :| 0 <= i < last && ms[..last][i] == (k, m[k]);
          assert ms[i] == (k, m[k]);
        }
      }
      m[ms[last].0 := ms[last].1]
  }

  function Meaning(v: Json): Tree
    decreases v
  {
    match v
    case Null => TNull
    case Bool(b) => TBool(b)
    case Num(n) => TNum(n)
    case Str(s) => TStr(s)
    case Arr(items) => TArr(seq(|items|, i requires 0 <= i < |items| => Meaning(items[i])))
    case Obj(ms) =>
      var m := Collected(ms);
      TObj(map k | k in m :: Meaning(m[k]))
  }

  /** Member i is the one its key keeps: no later member has the key. */
  ghost predicate Counts(ms: seq<(string, Json)>, i: int) {
    0 <= i < |ms| && forall j :: i < j < |ms| ==> ms[j].0 != ms[i].0
  }

  /** The same up to the order of object keys, at every depth: objects have the same keys with
      the same values, arrays the same items in the same order, anything else is equal. */
  ghost predicate SameUpToKeyOrder(v: Json, w: Json)
    decreases v
  {
    match v
    case Arr(xs) => w.Arr? && |xs| == |w.items| && forall i :: 0 <= i < |xs| ==> SameUpToKeyOrder(xs[i], w.items[i])
    case Obj(ms) =>
      && w.Obj?
      && (forall i :: Counts(ms, i) ==>
            exists j :: Counts(w.members, j) && w.members[j].0 == ms[i].0 && SameUpToKeyOrder(ms[i].1, w.members[j].1))
      && (forall j :: Counts(w.members, j) ==> exists i :: Counts(ms, i) && ms[i].0 == w.members[j].0)
    case _ => v == w
  }

  lemma {:induction false} CollectedAt(ms: seq<(string, Json)>, i: int)
    requires Counts(ms, i)
    ensures ms[i].0 in Collected(ms) && Collected(ms)[ms[i].0] == ms[i].1
    decreases |ms|
  {
    var last := |ms| - 1;
    if i < last {
      assert Counts(ms[..last], i);
      CollectedAt(ms[..last], i);
      assert ms[last].0 != ms[i].0;
    }
  }

  lemma {:induction false} CollectedFrom(ms: seq<(string, Json)>, k: string) returns (i: int)
    requires k in Collected(ms)
    ensures Counts(ms, i) && ms[i].0 == k
    decreases |ms|
  {
    var last := |ms| - 1;
    if ms[last].0 == k {
      i := last;
    } else {
      i := CollectedFrom(ms[..last], k);
      assert forall j :: i < j < last ==> ms[j].0 == ms[..last][j].0;
    }
  }

  /** Objects are the same when they are key by key. */
  lemma SameByKey(v: Json, w: Json)
    requires v.Obj? && w.Obj?
    ensures var m, n := Collected(v.members), Collected(w.members);
            SameUpToKeyOrder(v, w)
            <==> m.Keys == n.Keys && forall k :: k in m && k in n ==> SameUpToKeyOrder(m[k], n[k])
  {
    if SameUpToKeyOrder(v, w) { SameKeys(v, w); }
    var m, n := Collected(v.members), Collected(w.members);
    if m.Keys == n.Keys && forall k :: k in m && k in n ==> SameUpToKeyOrder(m[k], n[k]) { KeysSame(v, w); }
  }

  lemma SameAtKey(v: Json, w: Json, k: string)
    requires v.Obj? && w.Obj? && SameUpToKeyOrder(v, w) && k in Collected(v.members)
    ensures k in Collected(w.members) && SameUpToKeyOrder(Collected(v.members)[k], Collected(w.members)[k])
  {
    var i := CollectedFrom(v.members, k);
    CollectedAt(v.members, i);
    var j :| Counts(w.members, j) && w.members[j].0 == v.members[i].0
      && SameUpToKeyOrder(v.members[i].1, w.members[j].1);
    CollectedAt(w.members, j);
  }

  lemma SameKeys(v: Json, w: Json)
    requires v.Obj? && w.Obj? && SameUpToKeyOrder(v, w)
    ensures var m, n := Collected(v.members), Collected(w.members);
            m.Keys == n.Keys && forall k :: k in m && k in n ==> SameUpToKeyOrder(m[k], n[k])
  {
    KeysAgree(v, w);
    var m, n := Collected(v.members), Collected(w.members);
    forall k | k in m && k in n ensures SameUpToKeyOrder(m[k], n[k]) { SameAtKey(v, w, k); }
  }

  lemma KeysAgree(v: Json, w: Json)
    requires v.Obj? && w.Obj? && SameUpToKeyOrder(v, w)
    ensures Collected(v.members).Keys == Collected(w.members).Keys
  {
    forall k ensures k in Collected(v.members) <==> k in Collected(w.members) {
      if k in Collected(v.members) { SameAtKey(v, w, k); }
      if k in Collected(w.members) { BackAtKey(v, w, k); }
    }
  }

  lemma BackAtKey(v: Json, w: Json, k: string)
    requires v.Obj? && w.Obj? && SameUpToKeyOrder(v, w) && k in Collected(w.members)
    ensures k in Collected(v.members)
  {
    var j := CollectedFrom(w.members, k);
    var i :| Counts(v.members, i) && v.members[i].0 == w.members[j].0;
    CollectedAt(v.members, i);
  }

  lemma KeysSame(v: Json, w: Json)
    requires v.Obj? && w.Obj?
    requires var m, n := Collected(v.members), Collected(w.members);
             m.Keys == n.Keys && forall k :: k in m && k in n ==> SameUpToKeyOrder(m[k], n[k])
    ensures SameUpToKeyOrder(v, w)
  {
    var m, n := Collected(v.members), Collected(w.members);
    forall i | Counts(v.members, i)
      ensures exists j :: Counts(w.members, j) && w.members[j].0 == v.members[i].0
                          && SameUpToKeyOrder(v.members[i].1, w.members[j].1)
    {
      var k := v.members[i].0;
      CollectedAt(v.members, i);
      assert k in m.Keys && k in n.Keys;
      var j := CollectedFrom(w.members, k);
      CollectedAt(w.members, j);
    }
    forall j | Counts(w.members, j) ensures exists i :: Counts(v.members, i) && v.members[i].0 == w.members[j].0 {
      CollectedAt(w.members, j);
      assert w.members[j].0 in n.Keys && w.members[j].0 in m.Keys;
      var i := CollectedFrom(v.members, w.members[j].0);
    }
  }

  lemma EqualByKey(v: Json, w: Json)
    requires v.Obj? && w.Obj?
    ensures var m, n := Collected(v.members), Collected(w.members);
            Meaning(v) == Meaning(w)
            <==> m.Keys == n.Keys && forall k :: k in m && k in n ==> Meaning(m[k]) == Meaning(n[k])
  {
    var m, n := Collected(v.members), Collected(w.members);
    var s, t := Meaning(v).members, Meaning(w).members;
    assert s.Keys == m.Keys && t.Keys == n.Keys;
    if s == t {
      forall k | k in m && k in n ensures Meaning(m[k]) == Meaning(n[k]) {
        assert s[k] == Meaning(m[k]) && t[k] == Meaning(n[k]);
      }
    }
    if m.Keys == n.Keys && forall k :: k in m && k in n ==> Meaning(m[k]) == Meaning(n[k]) {
      assert s == t;
    }
  }

  /** Key order, at any depth, is all that a value's meaning leaves out. */
  lemma {:induction false} KeyOrderIsAllThatIsForgotten(v: Json, w: Json)
    ensures SameUpToKeyOrder(v, w) <==> Meaning(v) == Meaning(w)
    decreases v
  {
    if v.Arr? && w.Arr? && |v.items| == |w.items| {
      forall i | 0 <= i < |v.items|
        ensures SameUpToKeyOrder(v.items[i], w.items[i]) <==> Meaning(v.items[i]) == Meaning(w.items[i])
      {
        KeyOrderIsAllThatIsForgotten(v.items[i], w.items[i]);
      }
      if Meaning(v) == Meaning(w) {
        forall i | 0 <= i < |v.items| ensures Meaning(v.items[i]) == Meaning(w.items[i]) {
          assert Meaning(v).items[i] == Meaning(w).items[i];
        }
      }
    } else if v.Obj? && w.Obj? {
      SameByKey(v, w);
      EqualByKey(v, w);
      var m, n := Collected(v.members), Collected(w.members);
      forall k | k in m && k in n ensures SameUpToKeyOrder(m[k], n[k]) <==> Meaning(m[k]) == Meaning(n[k]) {
        var i :| 0 <= i < |v.members| && v.members[i] == (k, m[k]);
        KeyOrderIsAllThatIsForgotten(m[k], n[k]);
      }
    }
  }

  // ---- the canonical text ----

  function NumberText(n: Number): (s: string)
    ensures s != [] && (IsDigit(s[0]) || s[0] == '-')
    ensures forall i :: 0 <= i < |s| ==> NumberChar(s[i])
  {
    match n
    case Float(text) => text
    case Int(value) => if value < 0 then "-" + Decimal(-value) else Decimal(value)
  }

  function HexDigit(d: nat): char
    requires d < 16
  {
    if d < 10 then '0' + d as char else 'a' + (d - 10) as char
  }

  /** Section 7 of RFC 8259: the quote, the reverse solidus and the control characters are escaped. */
  function EscapedChar(c: char): (s: string)
    ensures s != [] && s[0] != '"'
  {
    if c == '"' then "\\\""
    else if c == '\\' then "\\\\"
    else if c as int == 8 then "\\b"
    else if c as int == 9 then "\\t"
    else if c as int == 10 then "\\n"
    else if c as int == 12 then "\\f"
    else if c as int == 13 then "\\r"
    else if c as int < 32 then "\\u00" + [HexDigit(c as int / 16), HexDigit(c as int % 16)]
    else [c]
  }

  /** The escaped characters and the closing quote. */
  function Escaped(s: string): (t: string)
    ensures t != []
  {
    if s == [] then "\"" else EscapedChar(s[0]) + Escaped(s[1..])
  }

  function Quoted(s: string): string { "\"" + Escaped(s) }

  function TextOf(t: Tree): (s: string)
    ensures s != []
    decreases t, 1, 0
  {
    match t
    case TNull => "null"
    case TBool(b) => if b then "true" else "false"
    case TNum(n) => NumberText(n)
    case TStr(s) => Quoted(s)
    case TArr(items) => "[" + ItemsText(items, true)
    case TObj(members) => "{" + MembersText(t, SortedKeys(members.Keys), true)
  }

  /** The items still to be written, with their commas and the closing bracket. */
  function ItemsText(items: seq<Tree>, first: bool): (s: string)
    ensures s != [] && (!first ==> !NumberChar(s[0]))
    decreases items, 0, 0
  {
    if items == [] then "]"
    else (if first then "" else ",") + TextOf(items[0]) + ItemsText(items[1..], false)
  }

  /** The members still to be written, in the order of `keys`. */
  function MembersText(t: Tree, keys: seq<string>, first: bool): (s: string)
    requires t.TObj? && forall k :: k in keys ==> k in t.members
    ensures s != [] && (!first ==> !NumberChar(s[0]))
    decreases t, 0, |keys|
  {
    if keys == [] then "}"
    else
      MemberText(t, keys[0], first) + MembersText(t, keys[1..], false)
  }

  function MemberText(t: Tree, key: string, first: bool): (s: string)
    requires t.TObj? && key in t.members
    ensures s != [] && (!first ==> s[0] == ',')
    decreases t, 0, 0
  {
    (if first then "" else ",") + Quoted(key) + ":" + TextOf(t.members[key])
  }

  // ---- the writer ----

  class Buffer {
    var text: string

    constructor (start: string)
      ensures text == start
    {
      text := start;
    }

    method Push(more: string)
      modifies this
      ensures text == old(text) + more
    {
      text := text + more;
    }
  }

  method Escape(s: string) returns (t: string)
    ensures t == Quoted(s)
  {
    t := "\"";
    for i := 0 to |s|
      invariant t + Escaped(s[i..]) == Quoted(s)
    {
      assert s[i..][1..] == s[i + 1..];
      assert t + (EscapedChar(s[i]) + Escaped(s[i + 1..])) == (t + EscapedChar(s[i])) + Escaped(s[i + 1..]);
      t := t + EscapedChar(s[i]);
    }
    assert s[|s|..] == [];
    t := t + "\"";
  }

  method WriteCanonical(value: Json, out: Buffer)
    modifies out
    ensures out.text == old(out.text) + TextOf(Meaning(value))
    decreases value, 3
  {
    match value
    case Null => out.Push("null");
    case Bool(b) => out.Push(if b then "true" else "false");
    case Num(n) => out.Push(NumberText(n));
    case Str(s) =>
      var quoted := Escape(s);
      out.Push(quoted);
    case Arr(items) =>
      WriteArray(value, out);
    case Obj(ms) =>
      WriteObject(value, out);
  }

  method WriteItem(value: Json, first: bool, out: Buffer)
    modifies out
    ensures out.text == old(out.text) + ((if first then "" else ",") + TextOf(Meaning(value)))
    decreases value, 4
  {
    ghost var comma := if first then "" else ",";
    if !first {
      out.Push(",");
    }
    assert out.text == old(out.text) + comma;
    WriteCanonical(value, out);
    Regroup(old(out.text), comma, TextOf(Meaning(value)));
  }

  method WriteItems(ghost all: seq<Tree>, ghost value: Json, items: seq<Json>, out: Buffer)
    requires |all| == |items|
    requires forall i :: 0 <= i < |items| ==> all[i] == Meaning(items[i]) && items[i] < value
    modifies out
    ensures out.text == old(out.text) + ItemsText(all, true)[..|ItemsText(all, true)| - 1]
    decreases value, 1
  {
    ghost var start := out.text;
    for i := 0 to |items|
      invariant out.text + ItemsText(all[i..], i == 0) == start + ItemsText(all, true)
    {
      ghost var at := out.text;
      assert all[i..][1..] == all[i + 1..];
      WriteItem(items[i], i == 0, out);
      Regroup(at, (if i == 0 then "" else ",") + TextOf(all[i]), ItemsText(all[i + 1..], false));
    }
    assert all[|items|..] == [];
    DropLast(out.text, ']', start, ItemsText(all, true));
  }

  method WriteArray(value: Json, out: Buffer)
    requires value.Arr?
    modifies out
    ensures out.text == old(out.text) + TextOf(Meaning(value))
    decreases value, 2
  {
    ghost var all := Meaning(value).items;
    ArrayAssembles(out.text, all);
    out.Push("[");
    WriteItems(all, value, value.items, out);
    out.Push("]");
  }

  lemma ArrayAssembles(start: string, all: seq<Tree>)
    ensures var rest := ItemsText(all, true);
            start + TextOf(TArr(all)) == ((start + "[") + rest[..|rest| - 1]) + "]"
  {
    var rest := ItemsText(all, true);
    EndsWithBracket(all, true);
    Regroup(start + "[", rest[..|rest| - 1], "]");
    Regroup(start, "[", rest);
  }

  lemma {:induction false} EndsWithBracket(items: seq<Tree>, first: bool)
    ensures var s := ItemsText(items, first); s == s[..|s| - 1] + "]"
    decreases |items|
  {
    if items != [] { EndsWithBracket(items[1..], false); }
  }

  /** Collecting into a `BTreeMap`. */
  method Collect(ms: seq<(string, Json)>) returns (sorted: map<string, Json>)
    ensures sorted == Collected(ms)
  {
    sorted := map[];
    for i := 0 to |ms|
      invariant sorted == Collected(ms[..i])
    {
      assert ms[..i + 1][..i] == ms[..i];
      sorted := sorted[ms[i].0 := ms[i].1];
    }
    assert ms[..|ms|] == ms;
  }

  method WriteMember(ghost all: Tree, value: Json, key: string, first: bool, out: Buffer)
    requires all.TObj? && key in all.members && all.members[key] == Meaning(value)
    modifies out
    ensures out.text == old(out.text) + MemberText(all, key, first)
    decreases value, 4
  {
    ghost var start, comma := out.text, if first then "" else ",";
    if !first {
      out.Push(",");
    }
    assert out.text == start + comma;
    var quoted := Escape(key);
    out.Push(quoted);
    Regroup(start, comma, quoted);
    out.Push(":");
    Regroup(start, comma + quoted, ":");
    WriteCanonical(value, out);
    Regroup(start, comma + quoted + ":", TextOf(Meaning(value)));
  }

  method WriteMembers(ghost all: Tree, ghost value: Json, sorted: map<string, Json>, keys: seq<string>, out: Buffer)
    requires all.TObj? && sorted.Keys == all.members.Keys
    requires forall k :: k in sorted ==> all.members[k] == Meaning(sorted[k]) && sorted[k] < value
    requires forall k :: k in keys ==> k in sorted
    modifies out
    ensures out.text == old(out.text) + MembersText(all, keys, true) [..|MembersText(all, keys, true)| - 1]
    decreases value, 1
  {
    ghost var start := out.text;
    for i := 0 to |keys|
      invariant out.text + MembersText(all, keys[i..], i == 0) == start + MembersText(all, keys, true)
    {
      ghost var at := out.text;
      assert keys[i..][1..] == keys[i + 1..];
      WriteMember(all, sorted[keys[i]], keys[i], i == 0, out);
      Regroup(at, MemberText(all, keys[i], i == 0), MembersText(all, keys[i + 1..], false));
    }
    assert keys[|keys|..] == [];
    DropLast(out.text, '}', start, MembersText(all, keys, true));
  }

  method WriteObject(value: Json, out: Buffer)
    requires value.Obj?
    modifies out
    ensures out.text == old(out.text) + TextOf(Meaning(value))
    decreases value, 2
  {
    var sorted := Collect(value.members);
    var keys := SortedKeys(sorted.Keys);
    ghost var all := Meaning(value);
    assert all.members.Keys == sorted.Keys;
    ObjectAssembles(out.text, all, keys);
    out.Push("{");
    WriteMembers(all, value, sorted, keys, out);
    out.Push("}");
  }

  lemma ObjectAssembles(start: string, all: Tree, keys: seq<string>)
    requires all.TObj? && keys == SortedKeys(all.members.Keys)
    ensures var rest := MembersText(all, keys, true);
            start + TextOf(all) == ((start + "{") + rest[..|rest| - 1]) + "}"
  {
    var rest := MembersText(all, keys, true);
    EndsWithBrace(all, keys, true);
    Regroup(start + "{", rest[..|rest| - 1], "}");
    Regroup(start, "{", rest);
  }

  lemma {:induction false} EndsWithBrace(t: Tree, keys: seq<string>, first: bool)
    requires t.TObj? && forall k :: k in keys ==> k in t.members
    ensures var s := MembersText(t, keys, first); s == s[..|s| - 1] + "}"
    decreases |keys|
  {
    if keys != [] { EndsWithBrace(t, keys[1..], false); }
  }

  lemma DropLast(a: string, c: char, start: string, rest: string)
    requires a + [c] == start + rest && rest != []
    ensures a == start + rest[..|rest| - 1]
  {
    assert a == (a + [c])[..|a|];
  }

  lemma Regroup(a: string, b: string, c: string)
    ensures a + (b + c) == (a + b) + c
  {
  }

  // ---- the text determines the value ----

  predicate Ends(rest: string) { rest == [] || !NumberChar(rest[0]) }

  /** How many leading characters could belong to a number. */
  function Munch(s: string): nat {
    if s == [] || !NumberChar(s[0]) then 0 else 1 + Munch(s[1..])
  }

  lemma {:induction false} MunchesAll(a: string, r: string)
    requires (forall i :: 0 <= i < |a| ==> NumberChar(a[i])) && Ends(r)
    ensures Munch(a + r) == |a|
  {
    if a == [] {
      assert a + r == r;
    } else {
      assert (a + r)[0] == a[0] && (a + r)[1..] == a[1..] + r;
      MunchesAll(a[1..], r);
    }
  }

  lemma NumberDelimits(m: Number, r: string, n: Number, q: string)
    requires NumberText(m) + r == NumberText(n) + q && Ends(r) && Ends(q)
    ensures m == n && r == q
  {
    var a, b := NumberText(m), NumberText(n);
    MunchesAll(a, r);
    MunchesAll(b, q);
    assert a == (a + r)[..|a|] && b == (b + q)[..|b|];
    assert r == (a + r)[|a|..] && q == (b + q)[|b|..];
    NumberInjective(m, n);
  }

  lemma NumberInjective(m: Number, n: Number)
    requires NumberText(m) == NumberText(n)
    ensures m == n
  {
    var s := NumberText(m);
    if m.Int? && n.Int? {
      assert (m.value < 0) == (s[0] == '-') == (n.value < 0);
      var digits := if m.value < 0 then s[1..] else s;
      assert Decimal(if m.value < 0 then -m.value else m.value) == digits;
      assert Decimal(if n.value < 0 then -n.value else n.value) == digits;
      DecimalValue(if m.value < 0 then -m.value else m.value);
      DecimalValue(if n.value < 0 then -n.value else n.value);
    }
  }

  function HexValue(c: char): nat {
    if '0' <= c <= '9' then c as nat - '0' as nat
    else if 'a' <= c <= 'f' then c as nat - 'a' as nat + 10
    else 0
  }

  /** The first character an escaped text stands for, and what follows it. */
  function Unescaped(s: string): (char, string)
    requires s != []
  {
    if s[0] != '\\' || |s| < 2 then (s[0], s[1..])
    else if s[1] == 'b' then (8 as char, s[2..])
    else if s[1] == 't' then (9 as char, s[2..])
    else if s[1] == 'n' then (10 as char, s[2..])
    else if s[1] == 'f' then (12 as char, s[2..])
    else if s[1] == 'r' then (13 as char, s[2..])
    else if s[1] == 'u' && |s| >= 6 then ((16 * HexValue(s[4]) + HexValue(s[5])) as char, s[6..])
    else (s[1], s[2..])
  }

  lemma UnescapeEscaped(c: char, rest: string)
    ensures Unescaped(EscapedChar(c) + rest) == (c, rest)
  {
    var s := EscapedChar(c) + rest;
    if c as int < 32 && |EscapedChar(c)| == 6 {
      assert s[4] == HexDigit(c as int / 16) && s[5] == HexDigit(c as int % 16);
      assert s[6..] == rest;
    } else if |EscapedChar(c)| == 2 {
      assert s[2..] == rest;
    } else {
      assert s[1..] == rest;
    }
  }

  lemma {:induction false} EscapedDelimits(s: string, r: string, t: string, q: string)
    requires Escaped(s) + r == Escaped(t) + q
    ensures s == t && r == q
    decreases |s|
  {
    if s == [] {
      assert (Escaped(s) + r)[0] == '"';
      assert t == [];
      assert r == (Escaped(s) + r)[1..] && q == (Escaped(t) + q)[1..];
    } else {
      assert (Escaped(s) + r)[0] == EscapedChar(s[0])[0];
      assert t != [];
      var s', t' := Escaped(s[1..]) + r, Escaped(t[1..]) + q;
      Regroup(EscapedChar(s[0]), Escaped(s[1..]), r);
      Regroup(EscapedChar(t[0]), Escaped(t[1..]), q);
      UnescapeEscaped(s[0], s');
      UnescapeEscaped(t[0], t');
      EscapedDelimits(s[1..], r, t[1..], q);
    }
  }

  lemma QuotedDelimits(s: string, r: string, t: string, q: string)
    requires Quoted(s) + r == Quoted(t) + q
    ensures s == t && r == q
  {
    Peel("\"", Escaped(s), r, Escaped(t), q);
    EscapedDelimits(s, r, t, q);
  }

  lemma Strip(p: string, a: string, b: string)
    requires p + a == p + b
    ensures a == b
  {
    assert a == (p + a)[|p|..];
  }

  /** What the first character of a canonical text says about the value. */
  function Kind(c: char): nat {
    if c == '"' then 1 else if c == '[' then 2 else if c == '{' then 3
    else if c == 't' then 4 else if c == 'f' then 5 else if c == 'n' then 6 else 0
  }

  function KindOf(t: Tree): nat {
    match t
    case TNull => 6
    case TBool(b) => if b then 4 else 5
    case TNum(_) => 0
    case TStr(_) => 1
    case TArr(_) => 2
    case TObj(_) => 3
  }

  lemma FirstChar(t: Tree, r: string)
    ensures TextOf(t) + r != [] && Kind((TextOf(t) + r)[0]) == KindOf(t)
    ensures (TextOf(t) + r)[0] !in "]},:"
  {
  }

  lemma SameKind(t: Tree, r: string, u: Tree, q: string)
    requires TextOf(t) + r == TextOf(u) + q
    ensures KindOf(t) == KindOf(u)
  {
    FirstChar(t, r);
    FirstChar(u, q);
  }

  /** A canonical text is self-delimiting: two values followed by anything that cannot extend
      a number are equal, and so is what follows, as soon as the texts are. */
  lemma {:induction false} TextDelimits(t: Tree, r: string, u: Tree, q: string)
    requires TextOf(t) + r == TextOf(u) + q && Ends(r) && Ends(q)
    ensures t == u && r == q
    decreases t, 1, 0
  {
    SameKind(t, r, u, q);
    match t
    case TNull => Strip("null", r, q);
    case TBool(b) => Strip(TextOf(t), r, q);
    case TNum(n) =>
      NumberDelimits(n, r, u.n, q);
    case TStr(s) => QuotedDelimits(s, r, u.s, q);
    case TArr(items) =>
      Peel("[", ItemsText(items, true), r, ItemsText(u.items, true), q);
      ItemsDelimit(items, r, u.items, q, true);
    case TObj(members) =>
      ObjectDelimits(t, SortedKeys(members.Keys), r, u, SortedKeys(u.members.Keys), q);
      SameMembers(members, u.members);
  }

  lemma ObjectDelimits(t: Tree, ks: seq<string>, r: string, u: Tree, js: seq<string>, q: string)
    requires t.TObj? && (forall k :: k in ks ==> k in t.members)
    requires u.TObj? && (forall k :: k in js ==> k in u.members)
    requires "{" + MembersText(t, ks, true) + r == "{" + MembersText(u, js, true) + q
    ensures ks == js && r == q
    ensures forall k :: k in ks ==> t.members[k] == u.members[k]
    decreases t, 0, |ks| + 1
  {
    Peel("{", MembersText(t, ks, true), r, MembersText(u, js, true), q);
    MembersDelimit(t, ks, r, u, js, q, true);
  }

  lemma SameMembers(m: map<string, Tree>, n: map<string, Tree>)
    requires SortedKeys(m.Keys) == SortedKeys(n.Keys)
    requires forall k :: k in SortedKeys(m.Keys) ==> m[k] == n[k]
    ensures m == n
  {
    forall k ensures k in m.Keys <==> k in n.Keys {
      assert k in m.Keys <==> k in SortedKeys(m.Keys);
      assert k in n.Keys <==> k in SortedKeys(n.Keys);
    }
  }

  lemma Peel(p: string, a: string, r: string, b: string, q: string)
    requires (p + a) + r == (p + b) + q
    ensures a + r == b + q
  {
    Regroup(p, a, r);
    Regroup(p, b, q);
    Strip(p, a + r, b + q);
  }

  lemma {:induction false} ItemsDelimit(ts: seq<Tree>, r: string, us: seq<Tree>, q: string, first: bool)
    requires ItemsText(ts, first) + r == ItemsText(us, first) + q
    ensures ts == us && r == q
    decreases ts, 0, 0
  {
    var comma := if first then "" else ",";
    if ts == [] || us == [] {
      if ts != [] { ItemsStart(ts, r, first); }
      if us != [] { ItemsStart(us, q, first); }
      assert ts == us;
      Strip("]", r, q);
    } else {
      ItemsShape(ts, r, first);
      ItemsShape(us, q, first);
      Strip(comma, TextOf(ts[0]) + (ItemsText(ts[1..], false) + r), TextOf(us[0]) + (ItemsText(us[1..], false) + q));
      TextDelimits(ts[0], ItemsText(ts[1..], false) + r, us[0], ItemsText(us[1..], false) + q);
      ItemsDelimit(ts[1..], r, us[1..], q, false);
      assert ts == [ts[0]] + ts[1..] && us == [us[0]] + us[1..];
    }
  }

  lemma ItemsShape(ts: seq<Tree>, r: string, first: bool)
    requires ts != []
    ensures ItemsText(ts, first) + r
         == (if first then "" else ",") + (TextOf(ts[0]) + (ItemsText(ts[1..], false) + r))
    ensures Ends(ItemsText(ts[1..], false) + r)
  {
    var comma := if first then "" else ",";
    Regroup(comma, TextOf(ts[0]), ItemsText(ts[1..], false));
    Regroup(comma + TextOf(ts[0]), ItemsText(ts[1..], false), r);
    Regroup(comma, TextOf(ts[0]), ItemsText(ts[1..], false) + r);
  }

  lemma ItemsStart(ts: seq<Tree>, r: string, first: bool)
    requires ts != []
    ensures (ItemsText(ts, first) + r)[0] != ']'
  {
    ItemsShape(ts, r, first);
    FirstChar(ts[0], ItemsText(ts[1..], false) + r);
  }

  lemma {:induction false} MembersDelimit(t: Tree, ks: seq<string>, r: string, u: Tree, js: seq<string>, q: string,
                                          first: bool)
    requires t.TObj? && (forall k :: k in ks ==> k in t.members)
    requires u.TObj? && (forall k :: k in js ==> k in u.members)
    requires MembersText(t, ks, first) + r == MembersText(u, js, first) + q
    ensures ks == js && r == q
    ensures forall k :: k in ks ==> t.members[k] == u.members[k]
    decreases t, 0, |ks|
  {
    var comma := if first then "" else ",";
    if ks == [] || js == [] {
      if ks != [] { MembersShape(t, ks, r, first); }
      if js != [] { MembersShape(u, js, q, first); }
      assert ks == js;
      Strip("}", r, q);
    } else {
      MembersShape(t, ks, r, first);
      MembersShape(u, js, q, first);
      var a, b := MembersText(t, ks[1..], false) + r, MembersText(u, js[1..], false) + q;
      var v, w := t.members[ks[0]], u.members[js[0]];
      Strip(comma, Quoted(ks[0]) + (":" + (TextOf(v) + a)), Quoted(js[0]) + (":" + (TextOf(w) + b)));
      QuotedDelimits(ks[0], ":" + (TextOf(v) + a), js[0], ":" + (TextOf(w) + b));
      Strip(":", TextOf(v) + a, TextOf(w) + b);
      TextDelimits(v, a, w, b);
      MembersDelimit(t, ks[1..], r, u, js[1..], q, false);
      assert ks == [ks[0]] + ks[1..] && js == [js[0]] + js[1..];
    }
  }

  lemma MembersShape(t: Tree, ks: seq<string>, r: string, first: bool)
    requires ks != [] && t.TObj? && forall k :: k in ks ==> k in t.members
    ensures var rest := MembersText(t, ks[1..], false) + r;
            && MembersText(t, ks, first) + r
               == (if first then "" else ",") + (Quoted(ks[0]) + (":" + (TextOf(t.members[ks[0]]) + rest)))
            && Ends(rest)
    ensures (MembersText(t, ks, first) + r)[0] != '}'
  {
    var comma, k, v := if first then "" else ",", Quoted(ks[0]), TextOf(t.members[ks[0]]);
    var more := MembersText(t, ks[1..], false);
    Regroup(comma + k + ":" + v, more, r);
    Regroup(comma + k + ":", v, more + r);
    Regroup(comma + k, ":", v + (more + r));
    Regroup(comma, k, ":" + (v + (more + r)));
  }

  // ---- the preimage of a tool's hash ----

  /** The hashed fields of one tool definition. */
  datatype Definition = Definition(
    name: string,
    description: string,
    inputSchema: Option<Json>,
    outputSchema: Option<Json>,
    annotations: Option<Json>)

  const HEADER: string := "mcpgw/tool-pin/1\n"

  /** An absent field is written like a null one. */
  function OrNull(v: Option<Json>): Tree {
    if v.Some? then Meaning(v.value) else TNull
  }

  function FieldText(field: string, value: Tree): string { field + "=" + TextOf(value) + "\n" }

  function Preimage(d: Definition): string {
    HEADER + (FieldText("name", TStr(d.name))
    + (FieldText("description", TStr(d.description))
    + (FieldText("inputSchema", OrNull(d.inputSchema))
    + (FieldText("outputSchema", OrNull(d.outputSchema))
    + FieldText("annotations", OrNull(d.annotations))))))
  }

  method WriteField(out: Buffer, field: string, value: Option<Json>)
    modifies out
    ensures out.text == old(out.text) + FieldText(field, OrNull(value))
  {
    ghost var start := out.text;
    out.Push(field);
    out.Push("=");
    Regroup(start, field, "=");
    match value {
      case Some(v) => WriteCanonical(v, out);
      case None => out.Push("null");
    }
    Regroup(start, field + "=", TextOf(OrNull(value)));
    out.Push("\n");
    Regroup(start, field + "=" + TextOf(OrNull(value)), "\n");
  }

  /** `digest`, up to the hash. */
  method WritePreimage(d: Definition) returns (text: string)
    ensures text == Preimage(d)
  {
    var out := new Buffer(HEADER);
    WriteField(out, "name", Some(Str(d.name)));
    WriteField(out, "description", Some(Str(d.description)));
    WriteField(out, "inputSchema", d.inputSchema);
    WriteField(out, "outputSchema", d.outputSchema);
    WriteField(out, "annotations", d.annotations);
    var name, description := FieldText("name", TStr(d.name)), FieldText("description", TStr(d.description));
    var input := FieldText("inputSchema", OrNull(d.inputSchema));
    var output := FieldText("outputSchema", OrNull(d.outputSchema));
    var notes := FieldText("annotations", OrNull(d.annotations));
    text := out.text;
    Regroup(HEADER + name + description + input, output, notes);
    Regroup(HEADER + name + description, input, output + notes);
    Regroup(HEADER + name, description, input + (output + notes));
    Regroup(HEADER, name, description + (input + (output + notes)));
  }

  lemma FieldDelimits(field: string, t: Tree, r: string, u: Tree, q: string)
    requires FieldText(field, t) + r == FieldText(field, u) + q
    ensures t == u && r == q
  {
    var p := field + "=";
    Regroup(p + TextOf(t), "\n", r);
    Regroup(p + TextOf(u), "\n", q);
    Regroup(p, TextOf(t), "\n" + r);
    Regroup(p, TextOf(u), "\n" + q);
    Strip(p, TextOf(t) + ("\n" + r), TextOf(u) + ("\n" + q));
    TextDelimits(t, "\n" + r, u, "\n" + q);
    Strip("\n", r, q);
  }

  /** The same value, absent being null. */
  ghost predicate SameValue(v: Option<Json>, w: Option<Json>) { SameUpToKeyOrder(v.GetOr(Null), w.GetOr(Null)) }

  lemma SameValueIsMeaning(v: Option<Json>, w: Option<Json>)
    ensures SameValue(v, w) <==> OrNull(v) == OrNull(w)
  {
    KeyOrderIsAllThatIsForgotten(v.GetOr(Null), w.GetOr(Null));
  }

  /** The same definition, up to key order in the three values and with absent read as null. */
  ghost predicate SameDefinition(d: Definition, e: Definition) {
    && d.name == e.name && d.description == e.description
    && SameValue(d.inputSchema, e.inputSchema)
    && SameValue(d.outputSchema, e.outputSchema)
    && SameValue(d.annotations, e.annotations)
  }

  /** Two definitions have the same preimage exactly when they are the same definition; in
      particular no description can spell out the lines of another field. */
  lemma PreimageDecidesDefinition(d: Definition, e: Definition)
    ensures Preimage(d) == Preimage(e) <==> SameDefinition(d, e)
  {
    SameValueIsMeaning(d.inputSchema, e.inputSchema);
    SameValueIsMeaning(d.outputSchema, e.outputSchema);
    SameValueIsMeaning(d.annotations, e.annotations);
    if Preimage(d) == Preimage(e) {
      var d4, e4 := FieldText("annotations", OrNull(d.annotations)), FieldText("annotations", OrNull(e.annotations));
      var d3 := FieldText("outputSchema", OrNull(d.outputSchema)) + d4;
      var e3 := FieldText("outputSchema", OrNull(e.outputSchema)) + e4;
      var d2 := FieldText("inputSchema", OrNull(d.inputSchema)) + d3;
      var e2 := FieldText("inputSchema", OrNull(e.inputSchema)) + e3;
      var d1 := FieldText("description", TStr(d.description)) + d2;
      var e1 := FieldText("description", TStr(e.description)) + e2;
      Strip(HEADER, FieldText("name", TStr(d.name)) + d1, FieldText("name", TStr(e.name)) + e1);
      FieldDelimits("name", TStr(d.name), d1, TStr(e.name), e1);
      FieldDelimits("description", TStr(d.description), d2, TStr(e.description), e2);
      FieldDelimits("inputSchema", OrNull(d.inputSchema), d3, OrNull(e.inputSchema), e3);
      FieldDelimits("outputSchema", OrNull(d.outputSchema), d4, OrNull(e.outputSchema), e4);
      assert d4 + "" == d4 && e4 + "" == e4;
      FieldDelimits("annotations", OrNull(d.annotations), "", OrNull(e.annotations), "");
    }
  }
}
