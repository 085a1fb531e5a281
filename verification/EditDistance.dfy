/** The "did you mean" of the unknown-key diagnostics: a one-row Levenshtein distance,
    what that distance means, and the suggestion picked with it. */
module EditDistance {
  import opened Common
  import opened Text

  function Min(x: nat, y: nat): nat { if x < y then x else y }

  /** The textbook recurrence, on the last characters. */
  function Lev(a: string, b: string): nat
    decreases |a| + |b|
  {
    if a == [] then |b|
    else if b == [] then |a|
    else
      var p, q := a[..|a| - 1], b[..|b| - 1];
      Min(Min(Lev(p, b) + 1, Lev(a, q) + 1), Lev(p, q) + Cost(a[|a| - 1], b[|b| - 1]))
  }

  function Cost(x: char, y: char): nat { if x == y then 0 else 1 }

  /** The matrix entry for the first `i` characters of `a` and the first `j` of `b`. */
  function Cell(a: string, i: nat, b: string, j: nat): nat
    requires i <= |a| && j <= |b|
  {
    Lev(a[..i], b[..j])
  }

  lemma CellRecurrence(a: string, i: nat, b: string, j: nat)
    requires i < |a| && j < |b|
    ensures Cell(a, i + 1, b, j + 1)
         == Min(Min(Cell(a, i, b, j + 1) + 1, Cell(a, i + 1, b, j) + 1), Cell(a, i, b, j) + Cost(a[i], b[j]))
    ensures Cell(a, 0, b, j) == j && Cell(a, i, b, 0) == i
  {
    assert a[..i + 1][..i] == a[..i] && b[..j + 1][..j] == b[..j];
  }

  /** One row of the matrix, reused: before row `i` is processed `row[j]` is cell (i, j). */
  method Distance(a: string, b: string) returns (d: nat)
    ensures d == Lev(a, b)
  {
    var row := new nat[|b| + 1](j => j);
    for i := 0 to |a|
      invariant forall j :: 0 <= j <= |b| ==> row[j] == Cell(a, i, b, j)
    {
      var diagonal := row[0];
      row[0] := i + 1;
      for j := 0 to |b|
        invariant diagonal == Cell(a, i, b, j)
        invariant forall k :: 0 <= k <= j ==> row[k] == Cell(a, i + 1, b, k)
        invariant forall k :: j < k <= |b| ==> row[k] == Cell(a, i, b, k)
      {
        CellRecurrence(a, i, b, j);
        var next := Min(Min(row[j + 1] + 1, row[j] + 1), diagonal + Cost(a[i], b[j]));
        diagonal := row[j + 1];
        row[j + 1] := next;
      }
    }
    assert a[..|a|] == a && b[..|b|] == b;
    d := row[|b|];
  }

  // ---- the distance is a metric ----

  lemma {:induction false} Symmetric(a: string, b: string)
    ensures Lev(a, b) == Lev(b, a)
    decreases |a| + |b|
  {
    if a != [] && b != [] {
      var p, q := a[..|a| - 1], b[..|b| - 1];
      Symmetric(p, b);
      Symmetric(a, q);
      Symmetric(p, q);
    }
  }

  lemma {:induction false} ZeroIffEqual(a: string, b: string)
    ensures Lev(a, b) == 0 <==> a == b
    decreases |a| + |b|
  {
    if a != [] && b != [] {
      var p, q := a[..|a| - 1], b[..|b| - 1];
      ZeroIffEqual(p, q);
      assert a == p + [a[|a| - 1]] && b == q + [b[|b| - 1]];
    }
  }

  lemma {:induction false} LengthBound(a: string, b: string)
    ensures |a| <= |b| + Lev(a, b)
    decreases |a| + |b|
  {
    if a != [] && b != [] {
      var p, q := a[..|a| - 1], b[..|b| - 1];
      LengthBound(p, b);
      LengthBound(a, q);
      LengthBound(p, q);
    }
  }

  lemma {:induction false} UpperBound(a: string, b: string)
    ensures Lev(a, b) <= |a| + |b|
    decreases |a| + |b|
  {
    if a != [] && b != [] { UpperBound(a[..|a| - 1], b); }
  }

  lemma {:induction false} Triangle(a: string, b: string, c: string)
    ensures Lev(a, c) <= Lev(a, b) + Lev(b, c)
    decreases |a| + |b| + |c|
  {
    if a == [] {
      LengthBound(c, b);
      Symmetric(b, c);
    } else if c == [] {
      LengthBound(a, b);
    } else if b == [] {
      UpperBound(a, c);
    } else {
      var p, q, r := a[..|a| - 1], b[..|b| - 1], c[..|c| - 1];
      if Lev(a, b) == Lev(p, b) + 1 {
        Triangle(p, b, c);
      } else if Lev(b, c) == Lev(b, r) + 1 {
        Triangle(a, b, r);
      } else if Lev(a, b) == Lev(a, q) + 1 {
        Triangle(a, q, c);
        Triangle(a, q, r);
      } else {
        Triangle(p, q, c);
        Triangle(p, q, r);
      }
    }
  }

  // ---- the distance is the length of a shortest edit script ----

  datatype Edit =
    | Insert(at: nat, c: char)
    | Delete(at: nat)
    | Substitute(at: nat, c: char)

  predicate Fits(s: string, e: Edit) {
    if e.Insert? then e.at <= |s| else e.at < |s|
  }

  function Edited(s: string, e: Edit): string
    requires Fits(s, e)
  {
    match e
    case Insert(i, c) => s[..i] + [c] + s[i..]
    case Delete(i) => s[..i] + s[i + 1..]
    case Substitute(i, c) => s[..i] + [c] + s[i + 1..]
  }

  /** Applying `edits` one after the other turns `a` into `b`. */
  predicate Script(a: string, edits: seq<Edit>, b: string)
    decreases |edits|
  {
    if edits == [] then a == b
    else Fits(a, edits[0]) && Script(Edited(a, edits[0]), edits[1..], b)
  }

  lemma Shift(a: string, s: string)
    requires s != []
    ensures (a + [s[0]]) + s[1..] == a + s
  {
  }

  lemma {:induction false} CommonSuffix(a: string, b: string, s: string)
    ensures Lev(a + s, b + s) <= Lev(a, b)
    decreases |s|
  {
    if s == [] {
      assert a + s == a && b + s == b;
    } else {
      CommonSuffix(a + [s[0]], b + [s[0]], s[1..]);
      Shift(a, s);
      Shift(b, s);
    }
  }

  lemma LastCharacter(p: string, x: char, y: char)
    ensures Lev(p, p + [y]) <= 1 && Lev(p + [x], p) <= 1 && Lev(p + [x], p + [y]) <= 1
  {
    ZeroIffEqual(p, p);
    assert (p + [x])[..|p|] == p && (p + [y])[..|p|] == p;
  }

  /** An edit changes a piece of at most one character, between a common head and tail. */
  lemma EditSplits(s: string, e: Edit) returns (head: string, before: string, after: string, tail: string)
    requires Fits(s, e)
    ensures s == head + before + tail && Edited(s, e) == head + after + tail
    ensures |before| <= 1 && |after| <= 1
  {
    head, tail := s[..e.at], if e.Insert? then s[e.at..] else s[e.at + 1..];
    before := if e.Insert? then [] else [s[e.at]];
    after := if e.Delete? then [] else [e.c];
  }

  lemma PieceCost(head: string, before: string, after: string)
    requires |before| <= 1 && |after| <= 1
    ensures Lev(head + before, head + after) <= 1
  {
    var x := if before == [] then ' ' else before[0];
    var y := if after == [] then ' ' else after[0];
    LastCharacter(head, x, y);
    ZeroIffEqual(head, head);
    assert head + [] == head;
    assert before == [] || before == [x];
    assert after == [] || after == [y];
  }

  lemma OneEdit(s: string, e: Edit)
    requires Fits(s, e)
    ensures Lev(s, Edited(s, e)) <= 1
  {
    var head, before, after, tail := EditSplits(s, e);
    PieceCost(head, before, after);
    CommonSuffix(head + before, head + after, tail);
  }

  /** No script is shorter than the distance ... */
  lemma {:induction false} NoShorterScript(a: string, edits: seq<Edit>, b: string)
    requires Script(a, edits, b)
    ensures Lev(a, b) <= |edits|
    decreases |edits|
  {
    if edits == [] {
      ZeroIffEqual(a, b);
    } else {
      var next := Edited(a, edits[0]);
      OneEdit(a, edits[0]);
      NoShorterScript(next, edits[1..], b);
      Triangle(a, next, b);
    }
  }

  lemma TailOfConcat(xs: seq<Edit>, ys: seq<Edit>)
    requires xs != []
    ensures xs + ys != [] && (xs + ys)[0] == xs[0] && (xs + ys)[1..] == xs[1..] + ys
  {
  }

  lemma {:induction false} ScriptsCompose(a: string, xs: seq<Edit>, b: string, ys: seq<Edit>, c: string)
    requires Script(a, xs, b) && Script(b, ys, c)
    ensures Script(a, xs + ys, c)
    decreases |xs|
  {
    if xs == [] {
      assert xs + ys == ys;
    } else {
      ScriptsCompose(Edited(a, xs[0]), xs[1..], b, ys, c);
      TailOfConcat(xs, ys);
    }
  }

  lemma {:induction false} ScriptUnderSuffix(a: string, edits: seq<Edit>, b: string, y: char)
    requires Script(a, edits, b)
    ensures Script(a + [y], edits, b + [y])
    decreases |edits|
  {
    if edits != [] {
      var e := edits[0];
      assert Edited(a + [y], e) == Edited(a, e) + [y];
      ScriptUnderSuffix(Edited(a, e), edits[1..], b, y);
    }
  }

  /** ... and one script is exactly that long. */
  lemma {:induction false} ShortestScript(a: string, b: string) returns (edits: seq<Edit>)
    ensures Script(a, edits, b) && |edits| == Lev(a, b)
    decreases |a| + |b|
  {
    if a == [] && b == [] {
      edits := [];
    } else if b == [] || (a != [] && Lev(a, b) == Lev(a[..|a| - 1], b) + 1) {
      var rest := ShortestScript(a[..|a| - 1], b);
      edits := DeleteLast(a, rest, b);
    } else if a == [] || Lev(a, b) == Lev(a, b[..|b| - 1]) + 1 {
      var first := ShortestScript(a, b[..|b| - 1]);
      edits := InsertLast(a, first, b);
    } else {
      var rest := ShortestScript(a[..|a| - 1], b[..|b| - 1]);
      edits := ReplaceLast(a, rest, b);
    }
  }

  lemma DeleteLast(a: string, rest: seq<Edit>, b: string) returns (edits: seq<Edit>)
    requires a != [] && Script(a[..|a| - 1], rest, b)
    ensures Script(a, edits, b) && |edits| == |rest| + 1
  {
    edits := Prepend(a, Delete(|a| - 1), a[..|a| - 1], rest, b);
  }

  lemma InsertLast(a: string, first: seq<Edit>, b: string) returns (edits: seq<Edit>)
    requires b != [] && Script(a, first, b[..|b| - 1])
    ensures Script(a, edits, b) && |edits| == |first| + 1
  {
    var q := b[..|b| - 1];
    var e := Insert(|q|, b[|b| - 1]);
    assert Edited(q, e) == b;
    assert Script(q, [e], b);
    ScriptsCompose(a, first, q, [e], b);
    edits := first + [e];
  }

  lemma ReplaceLast(a: string, rest: seq<Edit>, b: string) returns (edits: seq<Edit>)
    requires a != [] && b != [] && Script(a[..|a| - 1], rest, b[..|b| - 1])
    ensures Script(a, edits, b) && |edits| == |rest| + Cost(a[|a| - 1], b[|b| - 1])
  {
    var y := b[|b| - 1];
    var next := a[..|a| - 1] + [y];
    ScriptUnderSuffix(a[..|a| - 1], rest, b[..|b| - 1], y);
    LastBack(b);
    LastBack(a);
    if a[|a| - 1] == y {
      edits := rest;
    } else {
      LastSubstituted(a, y);
      edits := Prepend(a, Substitute(|a| - 1, y), next, rest, b);
    }
  }

  lemma LastBack(a: string)
    requires a != []
    ensures a[..|a| - 1] + [a[|a| - 1]] == a
  {
  }

  lemma LastSubstituted(a: string, y: char)
    requires a != []
    ensures Fits(a, Substitute(|a| - 1, y)) && Edited(a, Substitute(|a| - 1, y)) == a[..|a| - 1] + [y]
  {
  }

  lemma Prepend(a: string, e: Edit, next: string, rest: seq<Edit>, b: string) returns (edits: seq<Edit>)
    requires Fits(a, e) && Edited(a, e) == next && Script(next, rest, b)
    ensures Script(a, edits, b) && edits == [e] + rest
  {
    edits := [e] + rest;
    assert edits[1..] == rest;
  }

  // ---- the suggestion ----

  /** Two edits at most, and never more edits than half the key. */
  predicate Admissible(key: string, candidate: string) {
    Lev(key, candidate) <= 2 && Lev(key, candidate) * 2 <= |key|
  }

  /** The order candidates are ranked in: fewer edits first, ties by name. */
  predicate Ranks(key: string, a: string, b: string) {
    Lev(key, a) < Lev(key, b) || (Lev(key, a) == Lev(key, b) && AtMost(a, b))
  }

  function Nearest(key: string, known: seq<string>): (best: Option<string>)
    ensures best.None? <==> forall k :: k in known ==> !Admissible(key, k)
    ensures best.Some? ==> best.value in known && Admissible(key, best.value)
    ensures best.Some? ==> forall k :: k in known && Admissible(key, k) ==> Ranks(key, best.value, k)
  {
    if known == [] then None
    else
      var last := known[|known| - 1];
      var before := Nearest(key, known[..|known| - 1]);
      assert forall k :: k in known <==> k == last || k in known[..|known| - 1];
      if !Admissible(key, last) then before
      else if before.None? then Some(last)
      else
        RanksTotal(key, before.value, last, known);
        if Ranks(key, before.value, last) then before else Some(last)
  }

  lemma RanksTotal(key: string, a: string, b: string, known: seq<string>)
    ensures Ranks(key, a, b) || Ranks(key, b, a)
    ensures forall k :: k in known && Ranks(key, a, k) && Ranks(key, b, a) ==> Ranks(key, b, k)
  {
    LessTotal(a, b);
    forall k | k in known && Ranks(key, a, k) && Ranks(key, b, a) ensures Ranks(key, b, k) {
      if Less(b, a) && Less(a, k) { LessTransitive(b, a, k); }
    }
  }

  /** An unknown key of one character is never given a suggestion. */
  lemma NoSuggestionForTinyKeys(key: string, known: seq<string>)
    requires |key| < 2 && key !in known
    ensures Nearest(key, known).None?
  {
    forall k | k in known ensures !Admissible(key, k) { ZeroIffEqual(key, k); }
  }

  /** What is suggested, from the distances alone: among the known keys at most two edits and at most
      half the key away, the one with the fewest edits, and of those the first in order. */
  lemma SuggestsExactly(key: string, known: seq<string>, c: string)
    ensures Nearest(key, known) == Some(c) <==>
              && c in known && Lev(key, c) <= 2 && 2 * Lev(key, c) <= |key|
              && forall k :: k in known && k != c && Lev(key, k) <= 2 && 2 * Lev(key, k) <= |key| ==>
                   Lev(key, c) < Lev(key, k) || (Lev(key, c) == Lev(key, k) && Less(c, k))
  {
    var best := Nearest(key, known);
    if best.Some? && c in known && Admissible(key, c) && c != best.value {
      LessTotal(c, best.value);
      if Less(c, best.value) { LessAsymmetric(c, best.value); }
    }
  }
}
