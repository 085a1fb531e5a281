/** Server names: which are valid, how an arbitrary client name becomes one, and how a free
    one is found. */
module ServerNames {
  import opened Text

  predicate LowerLetter(c: char) { 'a' <= c <= 'z' }

  predicate NameChar(c: char) { LowerLetter(c) || IsDigit(c) || c == '-' || c == '_' }

  /** Whether `c` occurs twice in a row. */
  predicate Doubled(s: string, c: char) { exists i :: 0 <= i < |s| - 1 && s[i] == c && s[i + 1] == c }

  predicate ValidName(s: string) {
    s != [] && (forall i :: 0 <= i < |s| ==> NameChar(s[i])) && !Doubled(s, '_')
  }

  /** A name is at least one of a to z, 0 to 9, dash and underscore, with no two underscores in a row. */
  lemma ValidExactly(s: string)
    ensures ValidName(s) <==>
              && |s| >= 1
              && (forall i :: 0 <= i < |s| ==>
                    97 <= s[i] as int <= 122 || 48 <= s[i] as int <= 57 || s[i] as int in {45, 95})
              && (forall i :: 0 < i < |s| ==> s[i] as int != 95 || s[i - 1] as int != 95)
  {
    if ValidName(s) {
      forall i | 0 <= i < |s|
        ensures 97 <= s[i] as int <= 122 || 48 <= s[i] as int <= 57 || s[i] as int in {45, 95}
      {
        assert NameChar(s[i]);
      }
    }
  }

  /** ASCII lower case. */
  function LowerChar(c: char): char { if 'A' <= c <= 'Z' then (c as int + 32) as char else c }

  function Lower(s: string): (r: string)
    ensures |r| == |s| && forall i :: 0 <= i < |s| ==> r[i] == LowerChar(s[i])
  {
    seq(|s|, i requires 0 <= i < |s| => LowerChar(s[i]))
  }

  // ---- slugs ----

  const FALLBACK := "imported-server"

  /** Whether a lower-cased character stands for itself in a slug. */
  predicate Stays(c: char) { LowerLetter(c) || IsDigit(c) || c == '_' }

  /** The characters that stay, with one dash for each run of others between two of them. */
  function Dashed(s: string): string {
    if s == [] then ""
    else
      var n := |s| - 1;
      var t := Dashed(s[..n]);
      var c := LowerChar(s[n]);
      if !Stays(c) then t
      else if t != "" && !Stays(LowerChar(s[n - 1])) then t + ['-', c]
      else t + [c]
  }

  /** Every run of underscores cut to one. */
  function Squeezed(s: string): string
    decreases |s|
  {
    if |s| < 2 then s
    else if s[0] == '_' && s[1] == '_' then Squeezed(s[1..])
    else [s[0]] + Squeezed(s[1..])
  }

  /** One pass of replacing `__` by `_`, left to right and without overlap. */
  function Replaced(s: string): (r: string)
    ensures Doubled(s, '_') ==> |r| < |s|
    ensures |r| <= |s|
    decreases |s|
  {
    if |s| < 2 then s
    else if s[0] == '_' && s[1] == '_' then "_" + Replaced(s[2..])
    else
      [s[0]] + Replaced(s[1..])
  }

  function Slug(name: string): string {
    var s := Squeezed(Dashed(name));
    if s == "" then FALLBACK else s
  }

  method Slugify(name: string) returns (out: string)
    ensures out == Slug(name)
  {
    out := "";
    var pendingDash := false;
    for i := 0 to |name|
      invariant out == Dashed(name[..i])
      invariant pendingDash == (i > 0 && !Stays(LowerChar(name[i - 1])))
    {
      var c := LowerChar(name[i]);
      assert name[..i + 1][..i] == name[..i];
      if Stays(c) {
        if pendingDash && out != "" { out := out + "-"; }
        pendingDash := false;
        out := out + [c];
      } else {
        pendingDash := true;
      }
    }
    assert name[..|name|] == name;
    while Doubled(out, '_')
      invariant Squeezed(out) == Squeezed(Dashed(name))
      decreases |out|
    {
      SqueezedReplaced(out);
      out := Replaced(out);
    }
    SqueezedFixed(out);
    if out == "" { out := FALLBACK; }
  }

  lemma {:induction false} SqueezedReplaced(s: string)
    ensures Squeezed(Replaced(s)) == Squeezed(s)
    ensures (s == "") == (Replaced(s) == "") && (s != "" ==> Replaced(s)[0] == s[0])
    decreases |s|
  {
    if |s| >= 2 {
      var c, rest := s[0], if s[0] == '_' && s[1] == '_' then s[2..] else s[1..];
      SqueezedReplaced(rest);
      var r := Replaced(s);
      assert r[1..] == Replaced(rest);
      if s[0] == '_' && s[1] == '_' { assert s[1..][1..] == rest; }
    }
  }

  lemma {:induction false} SqueezedFixed(s: string)
    ensures Squeezed(s) == s <==> !Doubled(s, '_')
    ensures |Squeezed(s)| <= |s|
    decreases |s|
  {
    if |s| >= 2 {
      SqueezedFixed(s[1..]);
      assert s == [s[0]] + s[1..];
    }
  }

  /** What a slug looks like: a valid name with no dash at either end and no two in a row. */
  predicate IsSlug(s: string) {
    ValidName(s) && s[0] != '-' && s[|s| - 1] != '-' && !Doubled(s, '-')
  }

  predicate Undashed(s: string) {
    && (forall i :: 0 <= i < |s| ==> NameChar(s[i]))
    && (s != "" ==> s[0] != '-' && s[|s| - 1] != '-') && !Doubled(s, '-')
  }

  lemma {:induction false} DashedShape(s: string)
    ensures Undashed(Dashed(s))
  {
    if s != [] { DashedShape(s[..|s| - 1]); }
  }

  lemma {:induction false} SqueezedShape(s: string)
    requires Undashed(s)
    ensures Undashed(Squeezed(s)) && !Doubled(Squeezed(s), '_')
    ensures (s == "") == (Squeezed(s) == "")
    ensures s != "" ==> Squeezed(s)[0] == s[0]
  {
    Pairs(s);
  }

  /** The first and last characters stay, and no neighbours are made that were not there. */
  lemma {:induction false} Pairs(s: string)
    ensures forall i :: 0 <= i < |Squeezed(s)| ==> Squeezed(s)[i] in s
    ensures (s == "") == (Squeezed(s) == "")
    ensures s != "" ==> Squeezed(s)[0] == s[0] && Squeezed(s)[|Squeezed(s)| - 1] == s[|s| - 1]
    ensures !Doubled(Squeezed(s), '_')
    ensures !Doubled(s, '-') ==> !Doubled(Squeezed(s), '-')
    decreases |s|
  {
    if |s| >= 2 {
      Pairs(s[1..]);
      var t := Squeezed(s[1..]);
      assert ([s[0]] + t)[1..] == t;
    }
  }

  /** Every name, whatever its characters, has a valid slug. */
  lemma SlugIsValid(name: string)
    ensures IsSlug(Slug(name))
  {
    DashedShape(name);
    SqueezedShape(Dashed(name));
  }

  /** Without a dash at the front and without two in a row. */
  predicate Spaced(s: string) {
    && (forall i :: 0 <= i < |s| ==> NameChar(s[i]))
    && (s != "" ==> s[0] != '-') && !Doubled(s, '-')
  }

  function WithoutLastDash(s: string): string {
    if s != "" && s[|s| - 1] == '-' then s[..|s| - 1] else s
  }

  lemma WithoutLastDashStep(s: string)
    requires Spaced(s) && |s| >= 2
    ensures var n := |s| - 1;
            var t := WithoutLastDash(s[..n]);
            t != "" && WithoutLastDash(s) ==
              if s[n] == '-' then t else if s[n - 1] == '-' then t + ['-', s[n]] else t + [s[n]]
  {
    var n := |s| - 1;
    assert s == s[..n] + [s[n]];
    if s[n - 1] == '-' {
      assert n - 1 > 0 && s[n] != '-';
      assert s[..n] == s[..n - 1] + [s[n - 1]];
      assert WithoutLastDash(s[..n]) == s[..n - 1];
    }
  }

  lemma {:induction false} DashedKeeps(s: string)
    requires Spaced(s)
    ensures Dashed(s) == WithoutLastDash(s)
    decreases |s|
  {
    if |s| >= 2 {
      DashedKeeps(s[..|s| - 1]);
      WithoutLastDashStep(s);
    } else if |s| == 1 {
      assert s == [s[0]];
    }
  }

  /** Slugs are exactly the names that slugging leaves alone, so slugging twice is slugging once. */
  lemma SlugFixedPoints(name: string)
    ensures Slug(name) == name <==> IsSlug(name)
    ensures Slug(Slug(name)) == Slug(name)
  {
    SlugIsValid(name);
    if IsSlug(name) { DashedKeeps(name); SqueezedFixed(name); }
    DashedKeeps(Slug(name));
    SqueezedFixed(Slug(name));
  }

  /** The letters and digits of a name, lower-cased, in order. */
  function Letters(s: string): string {
    if s == [] then ""
    else
      var c := LowerChar(s[|s| - 1]);
      Letters(s[..|s| - 1]) + (if LowerLetter(c) || IsDigit(c) then [c] else "")
  }

  lemma {:induction false} LettersConcat(s: string, t: string)
    ensures Letters(s + t) == Letters(s) + Letters(t)
  {
    if t == [] {
      assert s + t == s;
    } else {
      var n := |t| - 1;
      assert (s + t)[..|s| + n] == s + t[..n];
      LettersConcat(s, t[..n]);
    }
  }

  function Letter(c: char): string {
    if LowerLetter(LowerChar(c)) || IsDigit(LowerChar(c)) then [LowerChar(c)] else ""
  }

  lemma DashedLast(t: string, c: char)
    requires LowerChar(c) == c
    ensures Letters(t + ['-', c]) == Letters(t) + Letter(c)
  {
    assert t + ['-', c] == t + ['-'] + [c];
  }

  lemma {:induction false} DashedLetters(s: string)
    ensures Letters(Dashed(s)) == Letters(s)
  {
    if s != [] {
      var n := |s| - 1;
      var t, c := Dashed(s[..n]), LowerChar(s[n]);
      DashedLetters(s[..n]);
      DashedLast(t, c);
    }
  }

  lemma {:induction false} SqueezedLetters(s: string)
    ensures Letters(Squeezed(s)) == Letters(s)
    decreases |s|
  {
    if |s| >= 2 {
      SqueezedLetters(s[1..]);
      LettersConcat([s[0]], s[1..]);
      LettersConcat([s[0]], Squeezed(s[1..]));
      assert s == [s[0]] + s[1..];
      if s[0] == '_' {
        assert [s[0]][..0] == [];
        assert Letters([s[0]]) == "";
      }
    }
  }

  /** A slug loses no letter and no digit, and keeps their order; only a name with nothing to
      keep gets the fallback. */
  lemma SlugKeepsLetters(name: string)
    ensures Letters(name) != "" ==> Letters(Slug(name)) == Letters(name)
    ensures Slug(name) != FALLBACK ==> Letters(Slug(name)) == Letters(name)
  {
    DashedLetters(name);
    SqueezedLetters(Dashed(name));
  }

  // ---- free names ----

  /** The i-th name tried: the base itself, then `base-2`, `base-3` and so on. */
  function Suffixed(base: string, i: nat): string {
    if i <= 1 then base else base + "-" + Decimal(i)
  }

  lemma SuffixedDistinct(base: string, i: nat, j: nat)
    requires 1 <= i && 1 <= j && Suffixed(base, i) == Suffixed(base, j)
    ensures i == j
  {
    if i > 1 && j > 1 {
      var s := Suffixed(base, i);
      assert s[|base| + 1..] == Decimal(i);
      assert s[|base| + 1..] == Decimal(j);
      DecimalValue(i);
      DecimalValue(j);
    }
  }

  lemma SuffixedValid(base: string, i: nat)
    requires ValidName(base)
    ensures ValidName(Suffixed(base, i))
  {
    if i > 1 {
      var s, d := Suffixed(base, i), Decimal(i);
      assert forall k :: 0 <= k < |d| ==> s[|base| + 1 + k] == d[k];
      assert forall k :: |base| < k < |s| ==> s[k] == d[k - |base| - 1];
    }
  }

  /** `name` is the first name tried that is not taken. */
  ghost predicate IsNextFree(name: string, base: string, taken: set<string>) {
    && name !in taken
    && exists i: nat :: i >= 1 && name == Suffixed(base, i) && forall j :: 1 <= j < i ==> Suffixed(base, j) in taken
  }

  lemma NextFreeUnique(a: string, b: string, base: string, taken: set<string>)
    requires IsNextFree(a, base, taken) && IsNextFree(b, base, taken)
    ensures a == b
  {
    var i: nat :| i >= 1 && a == Suffixed(base, i) && forall j :: 1 <= j < i ==> Suffixed(base, j) in taken;
    var k: nat :| k >= 1 && b == Suffixed(base, k) && forall j :: 1 <= j < k ==> Suffixed(base, j) in taken;
    assert (i < k ==> a in taken) && (k < i ==> b in taken);
  }

  /** The first `n` names tried. */
  function Tried(base: string, n: nat): (s: set<string>)
    ensures forall t :: t in s <==> exists j: nat :: 1 <= j <= n && t == Suffixed(base, j)
  {
    if n == 0 then {}
    else
      var s := Tried(base, n - 1) + {Suffixed(base, n)};
      s
  }

  lemma {:induction false} TriedSize(base: string, n: nat)
    ensures |Tried(base, n)| == n
  {
    if n > 0 {
      TriedSize(base, n - 1);
      if Suffixed(base, n) in Tried(base, n - 1) {
        var j: nat :| 1 <= j <= n - 1 && Suffixed(base, n) == Suffixed(base, j);
        SuffixedDistinct(base, n, j);
      }
    }
  }

  lemma SizeOfSubset(a: set<string>, b: set<string>)
    requires a <= b
    ensures |a| <= |b|
  {
    assert b == a + (b - a);
  }

  /** Ends for every finite set of taken names, within one try more than there are of them. */
  method NextFree(base: string, taken: set<string>) returns (name: string)
    ensures IsNextFree(name, base, taken)
    ensures ValidName(base) ==> ValidName(name)
  {
    name := base;
    var i := 1;
    while name in taken
      invariant 1 <= i <= |taken| + 1 && name == Suffixed(base, i)
      invariant Tried(base, i - 1) <= taken
      decreases |taken| + 1 - i
    {
      TriedSize(base, i);
      SizeOfSubset(Tried(base, i), taken);
      i := i + 1;
      name := Suffixed(base, i);
    }
    assert forall j :: 1 <= j < i ==> Suffixed(base, j) in Tried(base, i - 1);
    if ValidName(base) { SuffixedValid(base, i); }
  }
}
