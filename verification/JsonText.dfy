/** What the canonical text is by RFC 8259: a reader of the standard's grammar reads the value back,
    strings are escaped as its section 7 says, and a definition's preimage has one line per field. */
module JsonText {
  import opened Common
  import opened Text
  import opened CanonicalJson

  // ---- characters ----

  const HEX: string := "0123456789abcdef"

  /** The second character of the two-character escapes of the control characters that have one. */
  function ShortEscape(c: char): Option<char> {
    if c as int == 0x08 then Some('b')
    else if c as int == 0x09 then Some('t')
    else if c as int == 0x0A then Some('n')
    else if c as int == 0x0C then Some('f')
    else if c as int == 0x0D then Some('r')
    else None
  }

  /** The quote and the backslash get a backslash, five control characters their short escape, the
      other control characters four lower-case hexadecimal digits; nothing else is escaped. */
  lemma EscapedByCases(c: char)
    ensures c == '"' || c == '\\' ==> EscapedChar(c) == ['\\', c]
    ensures ShortEscape(c).Some? ==> EscapedChar(c) == ['\\', ShortEscape(c).value]
    ensures c as int < 0x20 && ShortEscape(c).None? ==>
              EscapedChar(c) == ['\\', 'u', '0', '0', HEX[c as int / 16], HEX[c as int % 16]]
    ensures c as int >= 0x20 && c != '"' && c != '\\' ==> EscapedChar(c) == [c]
  {
    if c as int < 0x20 && ShortEscape(c).None? {
      assert HexDigit(c as int / 16) == HEX[c as int / 16];
      assert HexDigit(c as int % 16) == HEX[c as int % 16];
    }
  }

  /** Nothing below U+0020. */
  predicate Printable(s: string) { forall i :: 0 <= i < |s| ==> s[i] as int >= 0x20 }

  lemma {:induction false} EscapedPrintable(s: string)
    ensures Printable(Escaped(s))
    decreases |s|
  {
    if s != [] {
      EscapedByCases(s[0]);
      EscapedPrintable(s[1..]);
    }
  }

  /** No control character is ever written raw, whatever the value holds. */
  lemma {:induction false} TextPrintable(t: Tree)
    ensures Printable(TextOf(t))
    decreases t, 1, 0
  {
    match t
    case TStr(s) => EscapedPrintable(s);
    case TArr(items) => ItemsPrintable(items, true);
    case TObj(members) => MembersPrintable(t, SortedKeys(members.Keys), true);
    case TNum(n) => assert forall i :: 0 <= i < |NumberText(n)| ==> NumberChar(NumberText(n)[i]);
    case _ =>
  }

  lemma {:induction false} ItemsPrintable(items: seq<Tree>, first: bool)
    ensures Printable(ItemsText(items, first))
    decreases items, 0, 0
  {
    if items != [] {
      TextPrintable(items[0]);
      ItemsPrintable(items[1..], false);
    }
  }

  lemma {:induction false} MembersPrintable(t: Tree, keys: seq<string>, first: bool)
    requires t.TObj? && forall k :: k in keys ==> k in t.members
    ensures Printable(MembersText(t, keys, first))
    decreases t, 0, |keys|
  {
    if keys != [] {
      EscapedPrintable(keys[0]);
      TextPrintable(t.members[keys[0]]);
      MembersPrintable(t, keys[1..], false);
    }
  }

  // ---- lines ----

  function Newlines(s: string): nat {
    if s == [] then 0 else (if s[0] == '\n' then 1 else 0) + Newlines(s[1..])
  }

  lemma {:induction false} NewlinesConcat(a: string, b: string)
    ensures Newlines(a + b) == Newlines(a) + Newlines(b)
    decreases |a|
  {
    if a == [] {
      assert a + b == b;
    } else {
      assert (a + b)[1..] == a[1..] + b;
      NewlinesConcat(a[1..], b);
    }
  }

  lemma {:induction false} PrintableHasNone(s: string)
    requires Printable(s)
    ensures Newlines(s) == 0
    decreases |s|
  {
    if s != [] { PrintableHasNone(s[1..]); }
  }

  lemma OneLine(s: string)
    requires s != [] && s[|s| - 1] == '\n' && Printable(s[..|s| - 1])
    ensures Newlines(s) == 1
  {
    var body, last := s[..|s| - 1], s[|s| - 1..];
    assert s == body + last;
    NewlinesConcat(body, last);
    PrintableHasNone(body);
    assert last[1..] == [];
  }

  /** A field takes one line. */
  lemma FieldIsALine(field: string, t: Tree)
    requires Printable(field)
    ensures Newlines(FieldText(field, t)) == 1
    ensures Printable(FieldText(field, t)[..|FieldText(field, t)| - 1])
  {
    TextPrintable(t);
    assert FieldText(field, t)[..|FieldText(field, t)| - 1] == field + "=" + TextOf(t);
    OneLine(FieldText(field, t));
  }

  lemma HeaderIsALine()
    ensures Newlines(HEADER) == 1
  {
    OneLine(HEADER);
  }

  lemma FieldLine(field: string, head: string, t: Tree)
    requires head == field + "="
    ensures FieldText(field, t) == head + TextOf(t) + "\n"
  {
  }

  /** The preimage is its format tag and the five fields by name, in this order. */
  lemma PreimageLines(d: Definition)
    ensures Preimage(d)
            == "mcpgw/tool-pin/1\n"
               + ("name=" + TextOf(TStr(d.name)) + "\n"
                  + ("description=" + TextOf(TStr(d.description)) + "\n"
                     + ("inputSchema=" + TextOf(Meaning(d.inputSchema.GetOr(Null))) + "\n"
                        + ("outputSchema=" + TextOf(Meaning(d.outputSchema.GetOr(Null))) + "\n"
                           + ("annotations=" + TextOf(Meaning(d.annotations.GetOr(Null))) + "\n")))))
  {
    FieldLine("name", "name=", TStr(d.name));
    FieldLine("description", "description=", TStr(d.description));
    FieldLine("inputSchema", "inputSchema=", OrNull(d.inputSchema));
    FieldLine("outputSchema", "outputSchema=", OrNull(d.outputSchema));
    FieldLine("annotations", "annotations=", OrNull(d.annotations));
  }

  lemma FiveLines(a: string, b: string, c: string, d: string, e: string)
    requires Newlines(a) == Newlines(b) == Newlines(c) == Newlines(d) == Newlines(e) == 1
    ensures Newlines(a + (b + (c + (d + e)))) == 5
  {
    NewlinesConcat(d, e);
    NewlinesConcat(c, d + e);
    NewlinesConcat(b, c + (d + e));
    NewlinesConcat(a, b + (c + (d + e)));
  }

  lemma SixLinesOf(header: string, a: string, b: string, c: string, d: string, e: string)
    requires Newlines(header) == 1
    requires Newlines(a) == Newlines(b) == Newlines(c) == Newlines(d) == Newlines(e) == 1
    ensures Newlines(header + (a + (b + (c + (d + e))))) == 6
  {
    FiveLines(a, b, c, d, e);
    NewlinesConcat(header, a + (b + (c + (d + e))));
  }

  lemma TextFieldsAreLines(d: Definition)
    ensures Newlines(FieldText("name", TStr(d.name))) == 1
    ensures Newlines(FieldText("description", TStr(d.description))) == 1
  {
    FieldIsALine("name", TStr(d.name));
    FieldIsALine("description", TStr(d.description));
  }

  lemma ValueFieldsAreLines(d: Definition)
    ensures Newlines(FieldText("inputSchema", OrNull(d.inputSchema))) == 1
    ensures Newlines(FieldText("outputSchema", OrNull(d.outputSchema))) == 1
    ensures Newlines(FieldText("annotations", OrNull(d.annotations))) == 1
  {
    FieldIsALine("inputSchema", OrNull(d.inputSchema));
    FieldIsALine("outputSchema", OrNull(d.outputSchema));
    FieldIsALine("annotations", OrNull(d.annotations));
  }

  /** Each of the six is one line, whatever the definition holds. */
  lemma SixLines(d: Definition)
    ensures Newlines(Preimage(d)) == 6
  {
    HeaderIsALine();
    TextFieldsAreLines(d);
    ValueFieldsAreLines(d);
    SixLinesOf(HEADER, FieldText("name", TStr(d.name)), FieldText("description", TStr(d.description)),
               FieldText("inputSchema", OrNull(d.inputSchema)), FieldText("outputSchema", OrNull(d.outputSchema)),
               FieldText("annotations", OrNull(d.annotations)));
  }

  // ---- a reader of the grammar ----

  function HexOf(c: char): Option<nat> {
    if '0' <= c <= '9' then Some(c as nat - '0' as nat)
    else if 'a' <= c <= 'f' then Some(c as nat - 'a' as nat + 10)
    else if 'A' <= c <= 'F' then Some(c as nat - 'A' as nat + 10)
    else None
  }

  /** Section 7: the character after a backslash, or the four digits after `\u`, and what follows. */
  function ReadEscape(s: string): (r: Option<(char, string)>)
    ensures r.Some? ==> |r.value.1| < |s|
  {
    if s == [] then None
    else if s[0] == '"' || s[0] == '\\' || s[0] == '/' then Some((s[0], s[1..]))
    else if s[0] == 'b' then Some((0x08 as char, s[1..]))
    else if s[0] == 'f' then Some((0x0C as char, s[1..]))
    else if s[0] == 'n' then Some((0x0A as char, s[1..]))
    else if s[0] == 'r' then Some((0x0D as char, s[1..]))
    else if s[0] == 't' then Some((0x09 as char, s[1..]))
    else if s[0] == 'u' && |s| >= 5 then
      var a, b, c, d := HexOf(s[1]), HexOf(s[2]), HexOf(s[3]), HexOf(s[4]);
      if a.Some? && b.Some? && c.Some? && d.Some? then
        var code := 4096 * a.value + 256 * b.value + 16 * c.value + d.value;
        if 0xD800 <= code < 0xE000 then None else Some((code as char, s[5..]))
      else None
    else None
  }

  /** The characters up to the closing quote. */
  function ReadChars(s: string): (r: Option<(string, string)>)
    ensures r.Some? ==> |r.value.1| < |s|
    decreases |s|
  {
    if s == [] || s[0] as int < 0x20 then None
    else if s[0] == '"' then Some(("", s[1..]))
    else if s[0] == '\\' then
      var e := ReadEscape(s[1..]);
      if e.None? then None
      else
        var more := ReadChars(e.value.1);
        if more.None? then None else Some(([e.value.0] + more.value.0, more.value.1))
    else
      var more := ReadChars(s[1..]);
      if more.None? then None else Some(([s[0]] + more.value.0, more.value.1))
  }

  predicate FloatShape(s: string) {
    && s != [] && (forall i :: 0 <= i < |s| ==> NumberChar(s[i]))
    && (IsDigit(s[0]) || s[0] == '-') && ('.' in s || 'e' in s)
  }

  /** Section 6: an integer, or a text with a fraction or an exponent. */
  function ReadNumber(text: string): Option<Number> {
    if FloatShape(text) then Some(Float(text))
    else if text != [] && AllDigits(text) then Some(Int(Value(text)))
    else if |text| > 1 && text[0] == '-' && AllDigits(text[1..]) then Some(Int(0 - Value(text[1..]) as int))
    else None
  }

  /** A literal name, which has to be there in full. */
  function ReadWord(s: string, word: string, t: Tree): (r: Option<(Tree, string)>)
    requires word != []
    ensures r.Some? ==> |r.value.1| < |s|
  {
    if word <= s then Some((t, s[|word|..])) else None
  }

  /** Section 3: a value, and what follows it. */
  function ReadValue(s: string): (r: Option<(Tree, string)>)
    ensures r.Some? ==> |r.value.1| < |s|
    decreases |s|, 0
  {
    if s == [] then None
    else if s[0] == 'n' then ReadWord(s, "null", TNull)
    else if s[0] == 't' then ReadWord(s, "true", TBool(true))
    else if s[0] == 'f' then ReadWord(s, "false", TBool(false))
    else if s[0] == '"' then
      var text := ReadChars(s[1..]);
      if text.None? then None else Some((TStr(text.value.0), text.value.1))
    else if s[0] == '[' then
      var items := ReadItems(s[1..], true);
      if items.None? then None else Some((TArr(items.value.0), items.value.1))
    else if s[0] == '{' then
      var members := ReadMembers(s[1..], true);
      if members.None? then None else Some((TObj(members.value.0), members.value.1))
    else
      MunchFits(s);
      var n := ReadNumber(s[..Munch(s)]);
      if n.None? || Munch(s) == 0 then None else Some((TNum(n.value), s[Munch(s)..]))
  }

  lemma {:induction false} MunchFits(s: string)
    ensures Munch(s) <= |s|
    decreases |s|
  {
    if s != [] { MunchFits(s[1..]); }
  }

  /** Section 5: the items still to come, up to the closing bracket. */
  function ReadItems(s: string, first: bool): (r: Option<(seq<Tree>, string)>)
    ensures r.Some? ==> |r.value.1| < |s|
    decreases |s|, 1
  {
    if s == [] then None
    else if s[0] == ']' then Some(([], s[1..]))
    else if !first && s[0] != ',' then None
    else
      var item := ReadValue(if first then s else s[1..]);
      if item.None? then None
      else
        var more := ReadItems(item.value.1, false);
        if more.None? then None else Some(([item.value.0] + more.value.0, more.value.1))
  }

  /** Section 4: the members still to come, up to the closing brace. */
  function ReadMembers(s: string, first: bool): (r: Option<(map<string, Tree>, string)>)
    ensures r.Some? ==> |r.value.1| < |s|
    decreases |s|, 1
  {
    if s == [] then None
    else if s[0] == '}' then Some((map[], s[1..]))
    else if !first && s[0] != ',' then None
    else
      var at := if first then s else s[1..];
      if at == [] || at[0] != '"' then None
      else
        var key := ReadChars(at[1..]);
        if key.None? || key.value.1 == [] || key.value.1[0] != ':' then None
        else
          var value := ReadValue(key.value.1[1..]);
          if value.None? then None
          else
            var more := ReadMembers(value.value.1, false);
            if more.None? then None
            else Some((map[key.value.0 := value.value.0] + more.value.0, more.value.1))
  }

  // ---- it reads the canonical text back ----

  lemma HexReadsBack(d: nat)
    requires d < 16
    ensures HexOf(HEX[d]) == Some(d)
  {
  }

  lemma EscapeReadsBack(c: char, r: string)
    requires |EscapedChar(c)| > 1
    ensures EscapedChar(c)[0] == '\\' && ReadEscape(EscapedChar(c)[1..] + r) == Some((c, r))
  {
    EscapedByCases(c);
    var s := EscapedChar(c)[1..] + r;
    if |EscapedChar(c)| == 6 {
      HexReadsBack(c as int / 16);
      HexReadsBack(c as int % 16);
      assert s[5..] == r;
    } else {
      assert s[1..] == r;
    }
  }

  /** One escaped character more in front of what reads back. */
  lemma EscapedInFront(c: char, s: string, rest: string, r: string)
    requires |EscapedChar(c)| > 1 && ReadChars(rest) == Some((s, r))
    ensures ReadChars(EscapedChar(c) + rest) == Some(([c] + s, r))
  {
    EscapeReadsBack(c, rest);
    assert (EscapedChar(c) + rest)[1..] == EscapedChar(c)[1..] + rest;
  }

  lemma PlainInFront(c: char, s: string, rest: string, r: string)
    requires |EscapedChar(c)| == 1 && ReadChars(rest) == Some((s, r))
    ensures ReadChars(EscapedChar(c) + rest) == Some(([c] + s, r))
  {
    EscapedByCases(c);
    assert (EscapedChar(c) + rest)[1..] == rest;
  }

  lemma {:induction false} CharsReadBack(s: string, r: string)
    ensures ReadChars(Escaped(s) + r) == Some((s, r))
    decreases |s|
  {
    if s == [] {
      assert (Escaped(s) + r)[1..] == r;
    } else {
      var c, rest := s[0], Escaped(s[1..]) + r;
      CharsReadBack(s[1..], r);
      if |EscapedChar(c)| > 1 { EscapedInFront(c, s[1..], rest, r); } else { PlainInFront(c, s[1..], rest, r); }
      Regroup(EscapedChar(c), Escaped(s[1..]), r);
      assert s == [c] + s[1..];
    }
  }

  lemma NumberReadsBack(n: Number)
    ensures ReadNumber(NumberText(n)) == Some(n)
  {
    var text := NumberText(n);
    match n
    case Float(f) => assert FloatShape(text);
    case Int(v) =>
      var d := Decimal(if v < 0 then -v else v);
      DecimalValue(if v < 0 then -v else v);
      assert text == if v < 0 then "-" + d else d;
      if v < 0 { assert text[1..] == d; }
      assert '.' !in text && 'e' !in text;
  }

  lemma NumberValueReadsBack(n: Number, r: string)
    requires Ends(r)
    ensures ReadValue(NumberText(n) + r) == Some((TNum(n), r))
  {
    var text, s := NumberText(n), NumberText(n) + r;
    assert s[0] == text[0] && s[0] !in "\"[{ntf";
    MunchesAll(text, r);
    NumberReadsBack(n);
    assert s[..|text|] == text && s[|text|..] == r;
  }

  lemma OpensFirst(c: char, a: string, r: string)
    ensures ([c] + a + r)[0] == c && ([c] + a + r)[1..] == a + r
  {
  }

  lemma WordReadsBack(t: Tree, r: string)
    requires t.TNull? || t.TBool?
    ensures ReadValue(TextOf(t) + r) == Some((t, r))
  {
    var w := TextOf(t);
    assert w <= w + r && (w + r)[|w|..] == r && (w + r)[0] == w[0];
  }

  /** A reader of the standard reads the canonical text of a value back as that value, and stops where
      it ends. */
  lemma {:induction false} ReadsBack(t: Tree, r: string)
    requires Ends(r)
    ensures ReadValue(TextOf(t) + r) == Some((t, r))
    decreases t, 1, 0
  {
    match t
    case TNull => WordReadsBack(t, r);
    case TBool(_) => WordReadsBack(t, r);
    case TNum(n) =>
      NumberValueReadsBack(n, r);
    case TStr(s) =>
      OpensFirst('"', Escaped(s), r);
      CharsReadBack(s, r);
    case TArr(items) =>
      OpensFirst('[', ItemsText(items, true), r);
      ItemsReadBack(items, r, true);
    case TObj(members) =>
      ObjectReadsBack(t, SortedKeys(members.Keys), r);
  }

  lemma ReadObject(s: string)
    requires s != [] && s[0] == '{'
    ensures var members := ReadMembers(s[1..], true);
            ReadValue(s) == if members.None? then None else Some((TObj(members.value.0), members.value.1))
  {
  }

  /** The members of an object under some keys. */
  function Chosen(t: Tree, keys: seq<string>): map<string, Tree>
    requires t.TObj? && forall k :: k in keys ==> k in t.members
  {
    map k | k in keys :: t.members[k]
  }

  lemma AllChosen(t: Tree)
    requires t.TObj?
    ensures Chosen(t, SortedKeys(t.members.Keys)) == t.members
  {
  }

  lemma ObjectReadsBack(t: Tree, keys: seq<string>, r: string)
    requires t.TObj? && keys == SortedKeys(t.members.Keys)
    ensures ReadValue(TextOf(t) + r) == Some((t, r))
    decreases t, 0, |keys| + 1
  {
    OpensFirst('{', MembersText(t, keys, true), r);
    ReadObject(TextOf(t) + r);
    MembersReadBack(t, keys, r, true);
    AllChosen(t);
  }

  lemma {:induction false} ItemsReadBack(items: seq<Tree>, r: string, first: bool)
    ensures ReadItems(ItemsText(items, first) + r, first) == Some((items, r))
    decreases items, 0, 0
  {
    if items == [] {
      assert ("]" + r)[1..] == r;
    } else {
      var rest := ItemsText(items[1..], false) + r;
      ItemsShape(items, r, first);
      ItemsStart(items, r, first);
      ReadsBack(items[0], rest);
      ItemsReadBack(items[1..], r, false);
      AfterComma(first, TextOf(items[0]) + rest);
      assert items == [items[0]] + items[1..];
    }
  }

  lemma AfterComma(first: bool, s: string)
    ensures first ==> "" + s == s
    ensures !first ==> ("," + s)[0] == ',' && ("," + s)[1..] == s
  {
  }

  lemma {:induction false} MembersReadBack(t: Tree, keys: seq<string>, r: string, first: bool)
    requires t.TObj? && forall k :: k in keys ==> k in t.members
    ensures ReadMembers(MembersText(t, keys, first) + r, first) == Some((Chosen(t, keys), r))
    decreases t, 0, |keys|
  {
    if keys == [] {
      assert ("}" + r)[1..] == r;
      assert Chosen(t, keys) == map[];
    } else {
      var rest := MembersText(t, keys[1..], false) + r;
      var value := TextOf(t.members[keys[0]]) + rest;
      MembersShape(t, keys, r, first);
      AfterComma(first, Quoted(keys[0]) + (":" + value));
      QuoteOpens(keys[0], ":" + value);
      CharsReadBack(keys[0], ":" + value);
      assert (":" + value)[1..] == value;
      ReadsBack(t.members[keys[0]], rest);
      MembersReadBack(t, keys[1..], r, false);
      OneMember(t, keys);
    }
  }

  lemma QuoteOpens(s: string, r: string)
    ensures (Quoted(s) + r)[0] == '"' && (Quoted(s) + r)[1..] == Escaped(s) + r
  {
  }

  lemma OneMember(t: Tree, keys: seq<string>)
    requires keys != [] && t.TObj? && forall k :: k in keys ==> k in t.members
    ensures map[keys[0] := t.members[keys[0]]] + Chosen(t, keys[1..]) == Chosen(t, keys)
  {
    assert keys == [keys[0]] + keys[1..];
    assert Chosen(t, keys).Keys == {keys[0]} + Chosen(t, keys[1..]).Keys;
  }

  // ---- one text per value ----

  /** Texts with a comma between each two. */
  function Joined(parts: seq<string>): string {
    if parts == [] then "" else if |parts| == 1 then parts[0] else parts[0] + "," + Joined(parts[1..])
  }

  function ItemTexts(items: seq<Tree>): seq<string> {
    if items == [] then [] else [TextOf(items[0])] + ItemTexts(items[1..])
  }

  function MemberTexts(t: Tree, keys: seq<string>): seq<string>
    requires t.TObj? && forall k :: k in keys ==> k in t.members
  {
    if keys == [] then []
    else [Quoted(keys[0]) + ":" + TextOf(t.members[keys[0]])] + MemberTexts(t, keys[1..])
  }

  lemma {:induction false} ItemsJoined(items: seq<Tree>, first: bool)
    ensures ItemsText(items, first)
            == (if first || items == [] then "" else ",") + Joined(ItemTexts(items)) + "]"
    decreases |items|
  {
    if items != [] {
      ItemsJoined(items[1..], false);
      var texts := ItemTexts(items);
      assert texts[1..] == ItemTexts(items[1..]);
      JoinedStep(texts, "]");
    }
  }

  lemma JoinedStep(parts: seq<string>, last: string)
    requires parts != []
    ensures Joined(parts) + last
            == parts[0] + ((if |parts| == 1 then "" else ",") + Joined(parts[1..]) + last)
  {
  }

  lemma {:induction false} MembersJoined(t: Tree, keys: seq<string>, first: bool)
    requires t.TObj? && forall k :: k in keys ==> k in t.members
    ensures MembersText(t, keys, first)
            == (if first || keys == [] then "" else ",") + Joined(MemberTexts(t, keys)) + "}"
    decreases |keys|
  {
    if keys != [] {
      var texts, comma := MemberTexts(t, keys), if first then "" else ",";
      MembersJoined(t, keys[1..], false);
      assert texts[1..] == MemberTexts(t, keys[1..]);
      JoinedStep(texts, "}");
      OneMemberText(t, keys[0], first);
      Regroup(comma, texts[0], MembersText(t, keys[1..], false));
      Regroup(comma, Joined(texts), "}");
    }
  }

  lemma OneMemberText(t: Tree, key: string, first: bool)
    requires t.TObj? && key in t.members
    ensures MemberText(t, key, first) == (if first then "" else ",") + (Quoted(key) + ":" + TextOf(t.members[key]))
  {
  }

  /** Of the texts the reader takes, the canonical one has no whitespace and the items of an array in
      their own order ... */
  lemma ArrayShape(items: seq<Tree>)
    ensures TextOf(TArr(items)) == "[" + (Joined(ItemTexts(items)) + "]")
  {
    ItemsJoined(items, true);
    assert "" + Joined(ItemTexts(items)) == Joined(ItemTexts(items));
  }

  /** ... and the members of an object by key, in byte order. */
  lemma ObjectShape(t: Tree, keys: seq<string>)
    requires t.TObj? && keys == SortedKeys(t.members.Keys)
    ensures TextOf(t) == "{" + (Joined(MemberTexts(t, keys)) + "}")
  {
    MembersJoined(t, keys, true);
    assert "" + Joined(MemberTexts(t, keys)) == Joined(MemberTexts(t, keys));
  }
}
