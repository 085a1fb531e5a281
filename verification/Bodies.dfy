/** Cutting a captured body to size without cutting through a character. */
module Bodies {
  import opened Text

  const MAX_BODY_BYTES: nat := 2048

  const TRUNCATION_MARKER := "\U{2026}[truncated]"

  /** Byte offset `end` falls between two characters, or at an end of the text. */
  predicate Boundary(s: string, end: nat) {
    exists k :: 0 <= k <= |s| && Bytes(s[..k]) == end
  }

  lemma BytesStep(s: string, k: nat)
    requires k < |s|
    ensures Bytes(s[..k + 1]) == Bytes(s[..k]) + Width(s[k])
  {
    assert s[..k + 1][..k] == s[..k];
  }

  lemma {:induction false} BytesGrow(s: string, j: nat, k: nat)
    requires j <= k <= |s|
    ensures Bytes(s[..j]) <= Bytes(s[..k])
    ensures j < k ==> Bytes(s[..j]) < Bytes(s[..k])
    decreases k
  {
    if j < k {
      BytesGrow(s, j, k - 1);
      BytesStep(s, k - 1);
    }
  }

  /** The character that holds byte `at` of the text. */
  lemma {:induction false} Straddles(s: string, at: nat) returns (k: nat)
    requires at < Bytes(s)
    ensures k < |s| && Bytes(s[..k]) <= at < Bytes(s[..k + 1])
    decreases |s|
  {
    var n := |s| - 1;
    assert s[..n + 1] == s;
    if Bytes(s[..n]) <= at {
      k := n;
    } else {
      k := Straddles(s[..n], at);
      assert s[..n][..k] == s[..k] && s[..n][..k + 1] == s[..k + 1];
    }
  }

  /** A body that fits is kept whole; any other keeps as many whole characters as fit, which
      leaves at most three bytes unused, and says that it was cut. */
  method Truncate(text: string) returns (r: string, ghost k: nat)
    ensures Bytes(text) <= MAX_BODY_BYTES ==> r == text
    ensures Bytes(text) > MAX_BODY_BYTES ==>
              k < |text| && r == text[..k] + TRUNCATION_MARKER
              && MAX_BODY_BYTES - 4 < Bytes(text[..k]) <= MAX_BODY_BYTES < Bytes(text[..k + 1])
  {
    k := 0;
    if Bytes(text) <= MAX_BODY_BYTES { return text, 0; }
    k := Straddles(text, MAX_BODY_BYTES);
    BytesStep(text, k);
    var end := MAX_BODY_BYTES;
    while !Boundary(text, end)
      invariant Bytes(text[..k]) <= end <= MAX_BODY_BYTES
      decreases end
    {
      assert end != Bytes(text[..k]);
      end := end - 1;
    }
    var cut :| 0 <= cut <= |text| && Bytes(text[..cut]) == end;
    if cut < k { BytesGrow(text, cut, k); }
    if k < cut { BytesGrow(text, k + 1, cut); }
    r := text[..cut] + TRUNCATION_MARKER;
  }
}
