/** Names of the timestamped backups and the ordering key read back out of them. */
module BackupNames {
  import opened Common
  import opened Text

  const U64_MAX: nat := 0xFFFF_FFFF_FFFF_FFFF

  /** Sequence numbers per millisecond: a key is `millis * SEQ_SPAN + seq`. */
  const SEQ_SPAN: nat := 10_000

  function SaturatingMul(x: nat, y: nat): nat { if x * y <= U64_MAX then x * y else U64_MAX }

  function SaturatingAdd(x: nat, y: nat): nat { if x + y <= U64_MAX then x + y else U64_MAX }

  /** What stands before and after the first `c`. */
  function SplitOnce(s: string, c: char): (r: Option<(string, string)>)
    ensures r.None? <==> c !in s
    ensures r.Some? ==> s == r.value.0 + [c] + r.value.1 && c !in r.value.0
  {
    if s == [] then None
    else if s[0] == c then Some(([], s[1..]))
    else
      match SplitOnce(s[1..], c)
      case None => None
      case Some((before, after)) => Some(([s[0]] + before, after))
  }

  /** A run of digits that fits 64 bits. */
  function Digits(text: string): Option<nat> {
    if text == [] || !AllDigits(text) || Value(text) > U64_MAX then None else Some(Value(text))
  }

  function BackupName(key: nat, name: string): string {
    Padded(key / SEQ_SPAN, 13) + ['-'] + (Padded(key % SEQ_SPAN, 4) + ['-'] + name)
  }

  /** The sequence number in a four-digit second segment, 0 without one. */
  function SequenceOf(rest: string): nat {
    var split := SplitOnce(rest, '-');
    if split.Some? && |split.value.0| == 4 then Digits(split.value.0).GetOr(0) else 0
  }

  function ParseKey(fileName: string): nat {
    var split := SplitOnce(fileName, '-');
    if split.None? then 0
    else
      var (stamp, rest) := split.value;
      var dotted := SplitOnce(stamp, '.');
      if dotted.Some? then
        var millis, counter := Digits(dotted.value.0), Digits(dotted.value.1);
        if millis.Some? && counter.Some? && counter.value < SEQ_SPAN
        then SaturatingAdd(SaturatingMul(millis.value, SEQ_SPAN), counter.value)
        else 0
      else
        var millis := Digits(stamp);
        if millis.None? then 0
        else SaturatingAdd(SaturatingMul(millis.value, SEQ_SPAN), SequenceOf(rest))
  }

  lemma {:induction false} SplitAt(a: string, c: char, b: string)
    requires c !in a
    ensures SplitOnce(a + [c] + b, c) == Some((a, b))
  {
    var s := a + [c] + b;
    if a == [] {
      assert s[1..] == b;
    } else {
      assert s[0] == a[0] && s[1..] == a[1..] + [c] + b;
      SplitAt(a[1..], c, b);
      assert [a[0]] + a[1..] == a;
    }
  }

  lemma PaddedDigits(n: nat, width: nat)
    requires width > 0 && n <= U64_MAX
    ensures Digits(Padded(n, width)) == Some(n)
    ensures '-' !in Padded(n, width) && '.' !in Padded(n, width)
  {
    PaddedValue(n, width);
  }

  lemma FourDigits(seqNo: nat)
    requires seqNo < SEQ_SPAN
    ensures |Padded(seqNo, 4)| == 4
  {
    assert Pow10(4) == 10_000 by { assert Pow10(2) == 100; assert Pow10(3) == 1000; }
    PaddedValue(seqNo, 4);
  }

  /** The key read out of a backup's name is the key it was written with, whatever the file
      it is a copy of is called. */
  lemma NameRoundTrip(key: nat, name: string)
    requires key <= U64_MAX
    ensures ParseKey(BackupName(key, name)) == key
  {
    var millis, seqNo := key / SEQ_SPAN, key % SEQ_SPAN;
    var rest := Padded(seqNo, 4) + ['-'] + name;
    PaddedDigits(millis, 13);
    PaddedDigits(seqNo, 4);
    FourDigits(seqNo);
    SplitAt(Padded(millis, 13), '-', rest);
    SplitAt(Padded(seqNo, 4), '-', name);
    assert key == millis * SEQ_SPAN + seqNo;
  }

  // ---- the two shapes earlier releases wrote ----

  function LegacyName(millis: nat, name: string): string { Padded(millis, 15) + ['-'] + name }

  function LegacyCollision(millis: nat, n: nat, name: string): string {
    Padded(millis, 15) + ['.'] + Decimal(n) + ['-'] + name
  }

  /** A bare legacy name is ordered as sequence 0 exactly when the copied file's own name does
      not begin with a four-digit number above zero and a dash. */
  lemma LegacyOrder(millis: nat, name: string)
    requires millis * SEQ_SPAN + SEQ_SPAN <= U64_MAX
    ensures ParseKey(LegacyName(millis, name)) == millis * SEQ_SPAN + SequenceOf(name)
    ensures ParseKey(LegacyName(millis, name)) == millis * SEQ_SPAN <==> SequenceOf(name) == 0
  {
    PaddedDigits(millis, 15);
    SplitAt(Padded(millis, 15), '-', name);
    SequenceBound(name);
  }

  lemma SequenceBound(rest: string)
    ensures SequenceOf(rest) < SEQ_SPAN
  {
    var split := SplitOnce(rest, '-');
    if split.Some? && |split.value.0| == 4 && AllDigits(split.value.0) {
      var d := split.value.0;
      assert Value(d[..3]) == 10 * Value(d[..2]) + DigitValue(d[2]) by { assert d[..3][..2] == d[..2]; }
      assert Value(d[..2]) == 10 * Value(d[..1]) + DigitValue(d[1]) by { assert d[..2][..1] == d[..1]; }
      assert Value(d[..1]) == DigitValue(d[0]) by { assert d[..1][..0] == []; }
    }
  }

  /** A legacy backup of a file whose name begins with a year is taken for a later backup of
      its millisecond. */
  lemma LegacyYearIsMisread(millis: nat, year: nat, name: string)
    requires millis * SEQ_SPAN + SEQ_SPAN <= U64_MAX && year < SEQ_SPAN
    ensures ParseKey(LegacyName(millis, Padded(year, 4) + ['-'] + name)) == millis * SEQ_SPAN + year
  {
    LegacyOrder(millis, Padded(year, 4) + ['-'] + name);
    PaddedDigits(year, 4);
    FourDigits(year);
    SplitAt(Padded(year, 4), '-', name);
  }

  /** A legacy collision is ordered as sequence `n` of its millisecond. */
  lemma LegacyCollisionOrder(millis: nat, n: nat, name: string)
    requires millis * SEQ_SPAN + SEQ_SPAN <= U64_MAX
    ensures ParseKey(LegacyCollision(millis, n, name)) == if n < SEQ_SPAN then millis * SEQ_SPAN + n else 0
  {
    var head, tail := Padded(millis, 15), Decimal(n);
    PaddedDigits(millis, 15);
    DecimalValue(n);
    assert '-' !in head + ['.'] + tail;
    SplitAt(head + ['.'] + tail, '-', name);
    SplitAt(head, '.', tail);
    assert Digits(tail) == if n <= U64_MAX then Some(n) else None;
  }

  // ---- the names, character by character ----

  /** A name is the milliseconds in at least thirteen digits, the sequence number in four, and the
      name of the file. */
  lemma NameShape(key: nat, name: string)
    ensures exists millis, seqNo :: BackupName(key, name) == millis + "-" + seqNo + "-" + name
              && AllDigits(millis) && |millis| >= 13 && Value(millis) == key / 10_000
              && AllDigits(seqNo) && |seqNo| == 4 && Value(seqNo) == key % 10_000
  {
    var millis, seqNo := Padded(key / SEQ_SPAN, 13), Padded(key % SEQ_SPAN, 4);
    PaddedValue(key / SEQ_SPAN, 13);
    PaddedValue(key % SEQ_SPAN, 4);
    FourDigits(key % SEQ_SPAN);
    assert BackupName(key, name) == millis + "-" + seqNo + "-" + name;
  }

  /** A number that fits 64 bits. */
  predicate IsNumber(text: string) { text != "" && AllDigits(text) && Value(text) < 0x1_0000_0000_0000_0000 }

  function Capped(n: nat): nat { if n < 0x1_0000_0000_0000_0000 then n else 0xFFFF_FFFF_FFFF_FFFF }

  /** The sequence number is read from exactly four digits and a dash. */
  lemma SequenceExactly(head: string, tail: string)
    requires '-' !in head
    ensures SequenceOf(head + "-" + tail) == if |head| == 4 && AllDigits(head) then Value(head) else 0
    ensures SequenceOf(head) == 0
  {
    SplitAt(head, '-', tail);
    if |head| == 4 && AllDigits(head) { SequenceBound(head + "-" + tail); FourDigitsFit(head); }
  }

  lemma FourDigitsFit(d: string)
    requires |d| == 4 && AllDigits(d)
    ensures Value(d) < 10_000
  {
    assert Value(d[..3]) == 10 * Value(d[..2]) + DigitValue(d[2]) by { assert d[..3][..2] == d[..2]; }
    assert Value(d[..2]) == 10 * Value(d[..1]) + DigitValue(d[1]) by { assert d[..2][..1] == d[..1]; }
    assert Value(d[..1]) == DigitValue(d[0]) by { assert d[..1][..0] == []; }
  }

  lemma DigitsOfNumber(text: string)
    ensures Digits(text) == if IsNumber(text) then Some(Value(text)) else None
  {
  }

  lemma PlainKey(fileName: string, stamp: string, rest: string)
    requires '.' !in stamp && SplitOnce(fileName, '-') == Some((stamp, rest))
    ensures ParseKey(fileName) ==
              if IsNumber(stamp) then Capped(Capped(Value(stamp) * 10_000) + SequenceOf(rest)) else 0
  {
    DigitsOfNumber(stamp);
  }

  /** What comes before the first dash decides: a number of milliseconds, or one of an earlier release
      with a counter after a dot; any other name, or none, is the oldest. */
  lemma KeyByStamp(stamp: string, rest: string)
    requires '-' !in stamp && '.' !in stamp
    ensures ParseKey(stamp + "-" + rest) ==
              if IsNumber(stamp) then Capped(Capped(Value(stamp) * 10_000) + SequenceOf(rest)) else 0
  {
    SplitAt(stamp, '-', rest);
    PlainKey(stamp + "-" + rest, stamp, rest);
  }

  lemma NoDash(name: string)
    requires '-' !in name
    ensures ParseKey(name) == 0
  {
  }

  lemma DottedKey(fileName: string, millis: string, counter: string, rest: string)
    requires SplitOnce(fileName, '-') == Some((millis + "." + counter, rest))
    requires SplitOnce(millis + "." + counter, '.') == Some((millis, counter))
    ensures ParseKey(fileName) ==
              if IsNumber(millis) && IsNumber(counter) && Value(counter) < 10_000
              then Capped(Capped(Value(millis) * 10_000) + Value(counter)) else 0
  {
    DigitsOfNumber(millis);
    DigitsOfNumber(counter);
  }

  lemma KeyByCounter(millis: string, counter: string, rest: string)
    requires '-' !in millis && '.' !in millis && '-' !in counter
    ensures ParseKey(millis + "." + counter + "-" + rest) ==
              if IsNumber(millis) && IsNumber(counter) && Value(counter) < 10_000
              then Capped(Capped(Value(millis) * 10_000) + Value(counter)) else 0
  {
    var stamp := millis + "." + counter;
    assert '-' !in stamp;
    SplitAt(stamp, '-', rest);
    SplitAt(millis, '.', counter);
    DottedKey(stamp + "-" + rest, millis, counter, rest);
  }
}
