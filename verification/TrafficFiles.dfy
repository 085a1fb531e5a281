/** The daily traffic files: how they are named, which names count as one, and which files
    retention deletes. Timestamps are milliseconds since the Unix epoch. */
module TrafficFiles {
  import opened Common
  import opened Text
  import opened Calendar

  const DAY_MILLIS: nat := 86_400_000

  function DayOf(millis: nat): nat { millis / DAY_MILLIS }

  function NameOf(d: Date): string
    requires Valid(d) && d.year >= 0
  {
    Padded(d.year, 4) + ("-" + (Padded(d.month, 2) + ("-" + (Padded(d.day, 2) + ".jsonl"))))
  }

  lemma DatesFromEpoch(day: nat)
    ensures Valid(CivilFromDays(day)) && CivilFromDays(day).year >= 1970
  {
    Epoch();
    CivilSuccessor(day);
    if day > 0 { CivilMonotone(0, day); }
  }

  function NameOfDay(day: nat): string {
    DatesFromEpoch(day);
    NameOf(CivilFromDays(day))
  }

  /** The file a record of that instant belongs in. */
  function DailyName(millis: nat): string { NameOfDay(DayOf(millis)) }

  /** Whether a name is one of the daily files. */
  predicate IsDailyName(name: string) {
    && |name| == 16 && name[10..] == ".jsonl"
    && forall i | 0 <= i < 10 :: if i == 4 || i == 7 then name[i] == '-' else IsDigit(name[i])
  }

  lemma LessAfterDash(x: string, y: string)
    ensures Less("-" + x, "-" + y) <==> Less(x, y)
  {
    LessConcat("-", x, "-", y);
    LessIrreflexive("-");
  }

  /** Up to the year 9999 names compare as the dates do. */
  lemma NameOrder(a: Date, b: Date)
    requires Valid(a) && Valid(b) && 0 <= a.year <= 9999 && 0 <= b.year <= 9999
    ensures Less(NameOf(a), NameOf(b)) <==> Before(a, b)
  {
    assert Pow10(2) == 100 && Pow10(4) == 10_000 by { assert Pow10(1) == 10; assert Pow10(3) == 1000; }
    PaddedOrder(a.year, b.year, 4);
    PaddedOrder(a.month, b.month, 2);
    PaddedOrder(a.day, b.day, 2);
    PaddedValue(a.year, 4);
    PaddedValue(b.year, 4);
    PaddedValue(a.month, 2);
    PaddedValue(b.month, 2);
    PaddedValue(a.day, 2);
    PaddedValue(b.day, 2);
    var da, db := Padded(a.day, 2) + ".jsonl", Padded(b.day, 2) + ".jsonl";
    var ma, mb := Padded(a.month, 2) + ("-" + da), Padded(b.month, 2) + ("-" + db);
    LessConcat(Padded(a.day, 2), ".jsonl", Padded(b.day, 2), ".jsonl");
    LessIrreflexive(".jsonl");
    LessAfterDash(da, db);
    LessConcat(Padded(a.month, 2), "-" + da, Padded(b.month, 2), "-" + db);
    LessAfterDash(ma, mb);
    LessConcat(Padded(a.year, 4), "-" + ma, Padded(b.year, 4), "-" + mb);
  }

  predicate FourDigitYear(day: nat) { CivilFromDays(day).year <= 9999 }

  /** Up to the year 9999 the order of two daily names is the order of their days. */
  lemma DayOrder(i: nat, j: nat)
    requires i <= LAST_DAY && j <= LAST_DAY
    ensures Less(NameOfDay(i), NameOfDay(j)) <==> i < j
  {
    FourDigitDays(i);
    FourDigitDays(j);
    DatesFromEpoch(i);
    DatesFromEpoch(j);
    NameOrder(CivilFromDays(i), CivilFromDays(j));
    if i < j { CivilMonotone(i, j); }
    if j < i { CivilMonotone(j, i); }
  }

  /** A day's name is one the retention recognises exactly up to the year 9999. */
  lemma NamesAreDaily(day: nat)
    ensures IsDailyName(NameOfDay(day)) <==> FourDigitYear(day)
  {
    DatesFromEpoch(day);
    var d := CivilFromDays(day);
    assert Pow10(2) == 100 && Pow10(4) == 10_000 by { assert Pow10(1) == 10; assert Pow10(3) == 1000; }
    PaddedValue(d.year, 4);
    PaddedValue(d.month, 2);
    PaddedValue(d.day, 2);
    var y, m, dd := Padded(d.year, 4), Padded(d.month, 2), Padded(d.day, 2);
    var name := NameOfDay(day);
    if d.year <= 9999 {
      assert name[..4] == y && name[4] == '-' && name[5..7] == m && name[7] == '-' && name[8..10] == dd;
    } else {
      FiveDigits(d.year);
      assert |name| == |y| + 12;
    }
  }

  lemma FiveDigits(n: nat)
    requires n >= 10_000
    ensures |Padded(n, 4)| >= 5
  {
    assert |Decimal(n / 1000)| >= 2;
    assert n / 10 / 10 / 10 == n / 1000;
    assert |Decimal(n / 100)| >= 3 && |Decimal(n / 10)| >= 4;
  }

  /** 9999-12-31, the last day whose year has four digits. */
  const LAST_DAY: nat := 2_932_896

  /** The last day of an era's last year. */
  lemma EraEnds(era: nat, day: int)
    requires day == 146_097 * era + 146_036 - 719_468
    ensures CivilFromDays(day) == Date(400 * era + 399, 12, 31)
  {
    CivilIsInEra(day);
    assert (day + 719_468) / 146_097 == era && (day + 719_468) % 146_097 == 146_036;
    assert YearStart(399) == 145_731 && YearStart(400) == 146_097;
    InYear(era, 146_036, 399);
    December31(399 + era * 400);
  }

  lemma December31(year: int)
    ensures OnDay(year, 305) == Date(year, 12, 31)
  {
  }

  lemma LastDay()
    ensures CivilFromDays(LAST_DAY) == Date(9999, 12, 31)
    ensures CivilFromDays(LAST_DAY + 1) == Date(10_000, 1, 1)
  {
    EraEnds(24, LAST_DAY);
    CivilSuccessor(LAST_DAY);
  }

  lemma FourDigitDays(day: nat)
    ensures FourDigitYear(day) <==> day <= LAST_DAY
  {
    LastDay();
    if day < LAST_DAY { CivilMonotone(day, LAST_DAY); }
    if day > LAST_DAY {
      CivilMonotone(LAST_DAY, day);
      DatesFromEpoch(day);
    }
  }

  lemma TenThousandSortsEarly()
    ensures !Less(NameOfDay(LAST_DAY), NameOfDay(LAST_DAY + 1))
  {
    LastDay();
    assert Decimal(999) == "999" by { assert Decimal(99) == "99"; }
    assert Decimal(9999) == "9999";
    assert Decimal(1000) == "1000" by { assert Decimal(100) == "100" by { assert Decimal(10) == "10"; } }
    assert Decimal(10_000) == "10000";
    assert NameOfDay(LAST_DAY)[0] == '9' && NameOfDay(LAST_DAY + 1)[0] == '1';
  }

  /** The names of the days up to `n` sort in day order exactly when `n` is in a year of at
      most four digits: 10000-01-01 sorts before 9999-12-31. */
  lemma OrderHoldsUntilYear10000(n: nat)
    ensures (forall i, j :: 0 <= i < j <= n ==> Less(NameOfDay(i), NameOfDay(j))) <==> FourDigitYear(n)
  {
    FourDigitDays(n);
    if FourDigitYear(n) {
      forall i, j | 0 <= i < j <= n ensures Less(NameOfDay(i), NameOfDay(j)) {
        DayOrder(i, j);
      }
    } else {
      TenThousandSortsEarly();
    }
  }

  // ---- retention ----

  /** The name nothing older than which is kept; `retainDays` counts today. */
  function Cutoff(retainDays: nat, now: nat): string
    requires retainDays > 0
  {
    var back := (retainDays - 1) * DAY_MILLIS;
    DailyName(if now >= back then now - back else 0)
  }

  function Below(files: set<string>, cutoff: string): set<string> {
    set n | n in files && IsDailyName(n) && Less(n, cutoff)
  }

  /** The files retention deletes. */
  function Expired(files: set<string>, retainDays: nat, now: nat): set<string> {
    if retainDays == 0 then {} else Below(files, Cutoff(retainDays, now))
  }

  lemma CutoffDay(retainDays: nat, now: nat)
    requires retainDays > 0
    ensures var back := (retainDays - 1) * DAY_MILLIS;
            DayOf(if now >= back then now - back else 0)
            == if DayOf(now) >= retainDays - 1 then DayOf(now) - (retainDays - 1) else 0
  {
    var k := retainDays - 1;
    assert now == DAY_MILLIS * DayOf(now) + now % DAY_MILLIS;
    if DayOf(now) >= k {
      assert now - k * DAY_MILLIS == DAY_MILLIS * (DayOf(now) - k) + now % DAY_MILLIS;
    }
  }

  function CutoffDayOf(retainDays: nat, now: nat): nat
    requires retainDays > 0
  {
    if DayOf(now) >= retainDays - 1 then DayOf(now) - (retainDays - 1) else 0
  }

  /** Of the files this gateway writes, retention deletes exactly those of days that fell out
      of the window, as long as the window begins in a year of at most four digits. */
  lemma RetentionIsByAge(files: set<string>, retainDays: nat, now: nat, written: nat)
    requires retainDays > 0 && DayOf(now) < LAST_DAY + retainDays
    ensures DailyName(written) in files ==>
              (DailyName(written) in Expired(files, retainDays, now) <==> DayOf(written) + retainDays <= DayOf(now))
  {
    var day := CutoffDayOf(retainDays, now);
    CutoffDay(retainDays, now);
    NamesAreDaily(DayOf(written));
    FourDigitDays(DayOf(written));
    if DayOf(written) <= LAST_DAY { DayOrder(DayOf(written), day); }
  }

  /** Beyond that it does not: retention is by age for every file the gateway can write exactly
      while the window begins by 9999-12-31. */
  lemma RetentionHoldsUntilYear10000(retainDays: nat, now: nat)
    requires retainDays > 0
    ensures (forall written: nat ::
               DailyName(written) in Expired({DailyName(written)}, retainDays, now)
               <==> DayOf(written) + retainDays <= DayOf(now))
            <==> DayOf(now) < LAST_DAY + retainDays
  {
    if DayOf(now) < LAST_DAY + retainDays {
      forall written: nat
        ensures DailyName(written) in Expired({DailyName(written)}, retainDays, now)
                <==> DayOf(written) + retainDays <= DayOf(now)
      {
        RetentionIsByAge({DailyName(written)}, retainDays, now, written);
      }
    } else {
      var written := KeptTooLong(retainDays, now);
    }
  }

  /** A file that should have been deleted: 9999-12-31 when the window begins the day after, else
      10000-01-01, which does not count as a daily file. */
  lemma KeptTooLong(retainDays: nat, now: nat) returns (written: nat)
    requires retainDays > 0 && DayOf(now) >= LAST_DAY + retainDays
    ensures DailyName(written) !in Expired({DailyName(written)}, retainDays, now)
    ensures DayOf(written) + retainDays <= DayOf(now)
  {
    CutoffDay(retainDays, now);
    if DayOf(now) == LAST_DAY + retainDays {
      written := LAST_DAY * DAY_MILLIS;
      assert DayOf(written) == LAST_DAY;
      TenThousandSortsEarly();
    } else {
      written := (LAST_DAY + 1) * DAY_MILLIS;
      assert DayOf(written) == LAST_DAY + 1;
      NamesAreDaily(LAST_DAY + 1);
      FourDigitDays(LAST_DAY + 1);
    }
  }

  /** 99999-12-31, whose name sorts after that of every daily file. */
  const FAR_DAY: nat := 35_804_721

  lemma FarYear()
    ensures Padded(99_999, 4) == "99999"
  {
    assert Decimal(99) == "99";
    assert Decimal(999) == "999";
    assert Decimal(9999) == "9999";
    assert Decimal(99_999) == "99999";
  }

  lemma {:induction false} DigitsThenDash(name: string, far: string, n: nat)
    requires |name| > n && |far| > n && name[n] == '-'
    requires forall i :: 0 <= i < n ==> IsDigit(name[i])
    requires forall i :: 0 <= i <= n ==> far[i] == '9'
    ensures Less(name, far)
    decreases n
  {
    if n > 0 && name[0] == '9' { DigitsThenDash(name[1..], far[1..], n - 1); }
  }

  /** No file but a daily one is ever deleted, and none that is daily is safe: the names some
      pruning at some time deletes are exactly the daily ones. */
  lemma ForeignFilesStay(files: set<string>, name: string)
    requires name in files
    ensures (exists retainDays, now :: name in Expired(files, retainDays, now)) <==> IsDailyName(name)
    ensures forall now :: name !in Expired(files, 0, now)
  {
    if IsDailyName(name) {
      EraEnds(249, FAR_DAY);
      FarYear();
      GoneInTheEnd(files, name, FAR_DAY);
    }
  }

  lemma GoneInTheEnd(files: set<string>, name: string, day: nat)
    requires name in files && IsDailyName(name)
    requires CivilFromDays(day).year >= 0 && Padded(CivilFromDays(day).year, 4) == "99999"
    ensures name in Expired(files, 1, day * DAY_MILLIS)
  {
    DatesFromEpoch(day);
    assert DayOf(day * DAY_MILLIS) == day;
    DigitsThenDash(name, NameOfDay(day), 4);
  }

  /** Where the files live, how long they are kept, and the day they were last pruned on. */
  class Sink {
    var files: map<string, seq<string>>
    var retainDays: nat
    var prunedDay: Option<nat>

    constructor (retainDays: nat)
      ensures files == map[] && this.retainDays == retainDays && prunedDay == None
    {
      files := map[];
      this.retainDays := retainDays;
      prunedDay := None;
    }

    /** Deletes the expired files, in whatever order the directory lists them. */
    method Prune(now: nat) returns (removed: seq<string>)
      modifies this`files
      ensures files == old(files) - Expired(old(files.Keys), retainDays, now)
      ensures removed == SortedKeys(Expired(old(files.Keys), retainDays, now))
    {
      if retainDays == 0 {
        assert files == files - {};
        return [];
      }
      removed := Sweep(Cutoff(retainDays, now));
    }

    /** Deletes every daily file whose name is below `cutoff`. */
    method Sweep(cutoff: string) returns (removed: seq<string>)
      modifies this`files
      ensures files == old(files) - Below(old(files.Keys), cutoff)
      ensures removed == SortedKeys(Below(old(files.Keys), cutoff))
    {
      var gone: set<string> := {};
      var left := files.Keys;
      while left != {}
        invariant left <= old(files.Keys)
        invariant files == old(files) - gone
        invariant gone == Below(old(files.Keys) - left, cutoff)
        decreases |left|
      {
        var name :| name in left;
        left := left - {name};
        if IsDailyName(name) && Less(name, cutoff) {
          files := files - {name};
          gone := gone + {name};
        }
      }
      assert old(files.Keys) - left == old(files.Keys);
      removed := SortedKeys(gone);
    }

    method PruneIfDue(now: nat)
      modifies this
      ensures retainDays == old(retainDays) && prunedDay == Some(DayOf(now))
      ensures files == if old(prunedDay) == Some(DayOf(now)) then old(files)
                       else old(files) - Expired(old(files.Keys), retainDays, now)
    {
      var before := prunedDay;
      prunedDay := Some(DayOf(now));
      if before == Some(DayOf(now)) {
        return;
      }
      var _ := Prune(now);
    }

    /** Puts one record's line at the end of its day's file. */
    method Write(ts: nat, line: string)
      modifies this
      ensures retainDays == old(retainDays) && prunedDay == Some(DayOf(ts))
      ensures var kept := if old(prunedDay) == Some(DayOf(ts)) then old(files)
                          else old(files) - Expired(old(files.Keys), retainDays, ts);
              var name := DailyName(ts);
              files == kept[name := (if name in kept then kept[name] else []) + [line]]
    {
      PruneIfDue(ts);
      var name := DailyName(ts);
      var lines := if name in files then files[name] else [];
      files := files[name := lines + [line]];
    }
  }

  /** Today's file survives its own day's pruning, so a write is never lost to retention. */
  lemma TodayIsKept(files: set<string>, retainDays: nat, now: nat)
    ensures DailyName(now) !in Expired(files, retainDays, now)
  {
    NamesAreDaily(DayOf(now));
    FourDigitDays(DayOf(now));
    if retainDays > 0 && DayOf(now) <= LAST_DAY && DailyName(now) in files {
      RetentionIsByAge(files, retainDays, now, now);
    }
  }

  // ---- the names, character by character ----

  /** A daily name is four digits, two and two with dashes between, and the extension. */
  lemma DailyShape(name: string)
    ensures IsDailyName(name) <==>
              exists y, m, d :: |y| == 4 && |m| == |d| == 2 && AllDigits(y) && AllDigits(m) && AllDigits(d)
                                && name == DayText(y, m, d)
  {
    if IsDailyName(name) {
      var y, m, d := name[..4], name[5..7], name[8..10];
      assert name == DayText(y, m, d);
      assert AllDigits(y) && AllDigits(m) && AllDigits(d);
    }
    if y, m, d :| |y| == 4 && |m| == |d| == 2 && AllDigits(y) && AllDigits(m) && AllDigits(d)
                  && name == DayText(y, m, d) {
      assert name[10..] == ".jsonl";
    }
  }

  function DayText(y: string, m: string, d: string): string { y + "-" + m + "-" + d + ".jsonl" }

  lemma NamePieces(y: string, m: string, d: string)
    requires |y| == 4 && |m| == |d| == 2
    ensures var name := y + ("-" + (m + ("-" + (d + ".jsonl"))));
            |name| == 16 && name[..4] == y && name[5..7] == m && name[8..10] == d
  {
  }

  lemma PaddedPieces(d: Date)
    requires Valid(d) && 0 <= d.year <= 9999
    ensures |Padded(d.year, 4)| == 4 && Value(Padded(d.year, 4)) == d.year
    ensures |Padded(d.month, 2)| == 2 && Value(Padded(d.month, 2)) == d.month
    ensures |Padded(d.day, 2)| == 2 && Value(Padded(d.day, 2)) == d.day
  {
    assert Pow10(2) == 100 && Pow10(4) == 10_000 by { assert Pow10(1) == 10; assert Pow10(3) == 1000; }
    PaddedValue(d.year, 4);
    PaddedValue(d.month, 2);
    PaddedValue(d.day, 2);
  }

  /** The name of a day has its date in it, in this order. */
  lemma NameReadsBack(day: nat)
    requires FourDigitYear(day)
    ensures var name, d := NameOfDay(day), CivilFromDays(day);
            |name| == 16 && AllDigits(name[..4]) && AllDigits(name[5..7]) && AllDigits(name[8..10])
            && Value(name[..4]) == d.year && Value(name[5..7]) == d.month && Value(name[8..10]) == d.day
  {
    DatesFromEpoch(day);
    var d := CivilFromDays(day);
    PaddedPieces(d);
    NamePieces(Padded(d.year, 4), Padded(d.month, 2), Padded(d.day, 2));
  }

  lemma SomeDecimals()
    ensures Decimal(1) == "1" && Decimal(1970) == "1970"
  {
    assert Decimal(19) == "19";
    assert Decimal(197) == "197";
  }

  /** The first of them. */
  lemma FirstName()
    ensures NameOfDay(0) == "1970-01-01.jsonl"
  {
    Epoch();
    SomeDecimals();
  }
}
