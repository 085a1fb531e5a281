/** One server's `calls_per_minute` budget: a token bucket kept as the theoretical arrival
    time of the next call. Times are nanoseconds on a monotonic clock. */
module Budget {
  import opened Common

  /** One minute, the window every limit is a count over. */
  const WINDOW: nat := 60_000_000_000

  /** What a refused charge reports. */
  datatype OverBudget = OverBudget(limit: u32, retryIn: nat)

  /** `calls` calls may come at once, and one more every `gap`. */
  datatype Rate = Rate(gap: nat, calls: nat)

  function Times(k: nat, gap: nat): nat {
    if k == 0 then 0 else Times(k - 1, gap) + gap
  }

  /** How far the deadline may run ahead before the bucket is empty. */
  function Burst(rate: Rate): nat
    requires rate.calls > 0
  {
    Times(rate.calls - 1, rate.gap)
  }

  /** The rate a positive limit stands for; the division truncates. */
  function RateOf(limit: u32): (rate: Rate)
    requires limit > 0
  {
    Rate(WINDOW / limit as int, limit as int)
  }

  function Max(x: int, y: int): int { if x < y then y else x }

  /** How far ahead of `now` the deadline stands. */
  function Ahead(deadline: Option<int>, now: int): nat {
    Max(deadline.GetOr(now), now) - now
  }

  predicate Admits(deadline: Option<int>, rate: Rate, now: int)
    requires rate.calls > 0
  {
    Ahead(deadline, now) <= Burst(rate)
  }

  /** The deadline after one metered call: moved only when the call is let through. */
  function After(deadline: Option<int>, rate: Rate, now: int): Option<int>
    requires rate.calls > 0
  {
    if Admits(deadline, rate, now) then Some(now + Ahead(deadline, now) + rate.gap) else deadline
  }

  /** One charge: the new deadline, and what stopped the call if anything did. */
  function Charged(deadline: Option<int>, limit: u32, now: int): (Option<int>, Option<OverBudget>) {
    if limit == 0 then (deadline, None)
    else
      var rate := RateOf(limit);
      (After(deadline, rate, now),
       if Admits(deadline, rate, now) then None
       else Some(OverBudget(limit, Ahead(deadline, now) - Burst(rate))))
  }

  lemma {:induction false} TimesIsProduct(k: nat, gap: nat)
    ensures Times(k, gap) == k * gap
  {
    if k > 0 { TimesIsProduct(k - 1, gap); }
  }

  /** A positive 32-bit limit gets a positive gap, and its calls fill at most the window. */
  lemma RateFitsWindow(limit: u32)
    requires limit > 0
    ensures RateOf(limit).gap > 0
    ensures Times(limit as int, RateOf(limit).gap) <= WINDOW
    ensures WINDOW < (RateOf(limit).gap + 1) * limit as int
  {
    TimesIsProduct(limit as int, RateOf(limit).gap);
  }

  class Meter {
    var deadline: Option<int>

    constructor ()
      ensures deadline == None
    {
      deadline := None;
    }

    method Charge(limit: u32, now: int) returns (refused: Option<OverBudget>)
      modifies this
      ensures (deadline, refused) == Charged(old(deadline), limit, now)
    {
      if limit == 0 {
        return None;
      }
      var interval := WINDOW / limit as int;
      var burst := interval * (limit as int - 1);
      TimesIsProduct(limit as int - 1, interval);
      var due := Max(deadline.GetOr(now), now);
      var ahead := due - now;
      if ahead > burst {
        return Some(OverBudget(limit, ahead - burst));
      }
      deadline := Some(due + interval);
      return None;
    }
  }

  // ---- runs at one rate ----

  /** The deadline after charging at each of the clock readings, oldest first. */
  function Run(deadline: Option<int>, rate: Rate, nows: seq<int>): Option<int>
    requires rate.calls > 0
  {
    if nows == [] then deadline
    else After(Run(deadline, rate, nows[..|nows| - 1]), rate, nows[|nows| - 1])
  }

  /** How many charges stamped within [from, to] were let through. */
  function AdmittedWithin(deadline: Option<int>, rate: Rate, nows: seq<int>, from: int, to: int): nat
    requires rate.calls > 0
  {
    if nows == [] then 0
    else
      var before, now := nows[..|nows| - 1], nows[|nows| - 1];
      AdmittedWithin(deadline, rate, before, from, to)
      + if from <= now <= to && Admits(Run(deadline, rate, before), rate, now) then 1 else 0
  }

  /** The deadline stands at least `k` gaps past `from`; nothing is asked of k == 0. */
  ghost predicate Past(deadline: Option<int>, from: int, k: nat, gap: nat) {
    k > 0 ==> deadline.Some? && from + Times(k, gap) <= deadline.value
  }

  /** Every call admitted at or after `from` pushes the deadline one gap further. */
  lemma {:induction false} DeadlineCountsCalls(deadline: Option<int>, rate: Rate, nows: seq<int>, from: int, to: int)
    requires rate.calls > 0
    ensures Past(Run(deadline, rate, nows), from, AdmittedWithin(deadline, rate, nows, from, to), rate.gap)
  {
    if nows != [] {
      DeadlineCountsCalls(deadline, rate, nows[..|nows| - 1], from, to);
    }
  }

  /** The window bound, for clock readings in any order: k calls admitted with stamps in an
      interval of length D satisfy (k - 1) * gap <= D + burst. */
  lemma {:induction false} WindowBound(deadline: Option<int>, rate: Rate, nows: seq<int>, from: int, to: int)
    requires rate.calls > 0
    ensures var k := AdmittedWithin(deadline, rate, nows, from, to);
            k > 0 ==> Times(k - 1, rate.gap) <= (to - from) + Burst(rate)
  {
    if nows != [] {
      var before := nows[..|nows| - 1];
      WindowBound(deadline, rate, before, from, to);
      DeadlineCountsCalls(deadline, rate, before, from, to);
    }
  }

  lemma {:induction false} TimesMonotone(m: nat, n: nat, gap: nat)
    requires m < n && gap > 0
    ensures Times(m, gap) < Times(n, gap)
  {
    if m < n - 1 { TimesMonotone(m, n - 1, gap); }
  }

  /** At one instant no history, however long the idle period before it, buys more than one burst. */
  lemma AtOneInstant(deadline: Option<int>, rate: Rate, nows: seq<int>, at: int)
    requires rate.calls > 0 && rate.gap > 0
    ensures AdmittedWithin(deadline, rate, nows, at, at) <= rate.calls
  {
    WindowBound(deadline, rate, nows, at, at);
    var k := AdmittedWithin(deadline, rate, nows, at, at);
    if k > rate.calls { TimesMonotone(rate.calls - 1, k - 1, rate.gap); }
  }

  function Least(m: nat, n: nat): nat { if m < n then m else n }

  /** A burst of n calls, all stamped `now`. */
  function Simultaneous(now: int, n: nat): seq<int> {
    if n == 0 then [] else Simultaneous(now, n - 1) + [now]
  }

  lemma ChargeDuringBurst(deadline: Option<int>, rate: Rate, now: int, charged: nat)
    requires rate.gap > 0 && rate.calls > 0 && charged <= rate.calls
    requires Ahead(deadline, now) == Times(charged, rate.gap)
    ensures Admits(deadline, rate, now) <==> charged < rate.calls
    ensures Ahead(After(deadline, rate, now), now) == Times(Least(charged + 1, rate.calls), rate.gap)
  {
    if charged < rate.calls - 1 { TimesMonotone(charged, rate.calls - 1, rate.gap); }
  }

  /** A bucket that owes nothing lets exactly the first `calls` of n simultaneous calls through. */
  lemma {:induction false} FullBurst(deadline: Option<int>, rate: Rate, now: int, n: nat)
    requires rate.gap > 0 && rate.calls > 0 && Ahead(deadline, now) == 0
    ensures Ahead(Run(deadline, rate, Simultaneous(now, n)), now) == Times(Least(n, rate.calls), rate.gap)
    ensures AdmittedWithin(deadline, rate, Simultaneous(now, n), now, now) == Least(n, rate.calls)
  {
    if n > 0 {
      FullBurst(deadline, rate, now, n - 1);
      BurstStep(deadline, rate, now, Simultaneous(now, n - 1), n - 1);
    }
  }

  lemma BurstStep(deadline: Option<int>, rate: Rate, now: int, before: seq<int>, k: nat)
    requires rate.gap > 0 && rate.calls > 0
    requires Ahead(Run(deadline, rate, before), now) == Times(Least(k, rate.calls), rate.gap)
    requires AdmittedWithin(deadline, rate, before, now, now) == Least(k, rate.calls)
    ensures Ahead(Run(deadline, rate, before + [now]), now) == Times(Least(k + 1, rate.calls), rate.gap)
    ensures AdmittedWithin(deadline, rate, before + [now], now, now) == Least(k + 1, rate.calls)
  {
    ChargeDuringBurst(Run(deadline, rate, before), rate, now, Least(k, rate.calls));
  }

  /** `retryIn` is exact: after a refusal the next charge passes at a reading exactly when
      that reading is at least `retryIn` later, and the refusal itself cost nothing. */
  lemma RetryIsExact(deadline: Option<int>, limit: u32, now: int, later: int)
    requires Charged(deadline, limit, now).1.Some?
    ensures var (after, over) := Charged(deadline, limit, now);
            && after == deadline && over.value.limit == limit && over.value.retryIn > 0
            && (Charged(after, limit, later).1.None? <==> later >= now + over.value.retryIn)
  {
    var burst := Burst(RateOf(limit));
    assert Ahead(deadline, now) > burst;
  }

  // ---- the same thing as a token bucket ----

  /** A bucket in units of one nanosecond, as last read at `at`: a call costs one gap. */
  datatype Bucket = Bucket(level: int, at: int)

  function Capacity(rate: Rate): nat { Times(rate.calls, rate.gap) }

  function Refilled(b: Bucket, rate: Rate, now: int): int {
    var level := b.level + (now - b.at);
    if level < Capacity(rate) then level else Capacity(rate)
  }

  /** Refilled by one unit a nanosecond up to the capacity, then charged if it can pay. */
  function Drawn(b: Bucket, rate: Rate, now: int): (Bucket, bool) {
    var level := Refilled(b, rate, now);
    if level >= rate.gap then (Bucket(level - rate.gap, now), true) else (Bucket(level, now), false)
  }

  /** What the deadline says a bucket read at `at` holds. */
  function Holding(deadline: Option<int>, rate: Rate, at: int): Bucket {
    Bucket(Capacity(rate) - Ahead(deadline, at), at)
  }

  /** The decisions the two machines take along a run. */
  function MeterDecisions(deadline: Option<int>, rate: Rate, nows: seq<int>): seq<bool>
    requires rate.calls > 0
    decreases |nows|
  {
    if nows == [] then []
    else [Admits(deadline, rate, nows[0])]
         + MeterDecisions(After(deadline, rate, nows[0]), rate, nows[1..])
  }

  function BucketDecisions(b: Bucket, rate: Rate, nows: seq<int>): seq<bool>
    decreases |nows|
  {
    if nows == [] then []
    else
      var (after, paid) := Drawn(b, rate, nows[0]);
      [paid] + BucketDecisions(after, rate, nows[1..])
  }

  ghost predicate MonotoneFrom(start: int, nows: seq<int>)
    decreases |nows|
  {
    nows == [] || (start <= nows[0] && MonotoneFrom(nows[0], nows[1..]))
  }

  /** On every run of a clock that does not step back the deadline and a bucket of `calls`
      calls, full at the start, take the same decisions. */
  lemma {:induction false} RefinesTokenBucket(deadline: Option<int>, rate: Rate, at: int, nows: seq<int>)
    requires rate.calls > 0 && MonotoneFrom(at, nows)
    ensures MeterDecisions(deadline, rate, nows) == BucketDecisions(Holding(deadline, rate, at), rate, nows)
    ensures Holding(None, rate, at) == Bucket(Capacity(rate), at)
    decreases |nows|
  {
    if nows != [] {
      var after := After(deadline, rate, nows[0]);
      assert Drawn(Holding(deadline, rate, at), rate, nows[0])
          == (Holding(after, rate, nows[0]), Admits(deadline, rate, nows[0]));
      RefinesTokenBucket(after, rate, nows[0], nows[1..]);
    }
  }

  // ---- limits that change between calls ----

  datatype Call = Call(limit: u32, now: int)

  function RunCalls(deadline: Option<int>, calls: seq<Call>): Option<int> {
    if calls == [] then deadline
    else
      var last := calls[|calls| - 1];
      Charged(RunCalls(deadline, calls[..|calls| - 1]), last.limit, last.now).0
  }

  ghost predicate MonotoneCalls(calls: seq<Call>) {
    forall i, j :: 0 <= i < j < |calls| ==> calls[i].now <= calls[j].now
  }

  /** The deadline never runs more than a minute ahead of the last reading. */
  lemma {:induction false} WithinOneWindow(calls: seq<Call>, now: int)
    requires MonotoneCalls(calls)
    requires forall i :: 0 <= i < |calls| ==> calls[i].now <= now
    ensures Ahead(RunCalls(None, calls), now) <= WINDOW
  {
    if calls != [] {
      var last := calls[|calls| - 1];
      WithinOneWindow(calls[..|calls| - 1], last.now);
      if last.limit > 0 { RateFitsWindow(last.limit); }
    }
  }

  /** Whatever the limit was edited to between calls, no refusal asks for more than a minute. */
  lemma NoLongWait(calls: seq<Call>, limit: u32, now: int)
    requires MonotoneCalls(calls)
    requires forall i :: 0 <= i < |calls| ==> calls[i].now <= now
    ensures var over := Charged(RunCalls(None, calls), limit, now).1;
            over.Some? ==> 0 < over.value.retryIn <= WINDOW
  {
    WithinOneWindow(calls, now);
  }

  /** The calls made while the budget was on. */
  function Metered(calls: seq<Call>): seq<Call> {
    if calls == [] then []
    else
      var last := calls[|calls| - 1];
      if last.limit > 0 then Metered(calls[..|calls| - 1]) + [last] else Metered(calls[..|calls| - 1])
  }

  /** A call made while the budget is off is free and leaves every later decision alone. */
  lemma {:induction false} UnmeteredCallsSpendNothing(deadline: Option<int>, calls: seq<Call>)
    ensures RunCalls(deadline, calls) == RunCalls(deadline, Metered(calls))
  {
    if calls != [] {
      var before, last := calls[..|calls| - 1], calls[|calls| - 1];
      UnmeteredCallsSpendNothing(deadline, before);
      if last.limit > 0 {
        var kept := Metered(calls);
        assert kept[..|kept| - 1] == Metered(before) && kept[|kept| - 1] == last;
      }
    }
  }

  // ---- runs of charges at one limit ----

  /** Charges at one limit at each of the clock readings. */
  function AtLimit(limit: u32, nows: seq<int>): seq<Call> {
    seq(|nows|, i requires 0 <= i < |nows| => Call(limit, nows[i]))
  }

  /** What a charge made after a run of others answers. */
  function AnswerAfter(deadline: Option<int>, calls: seq<Call>, call: Call): Option<OverBudget> {
    Charged(RunCalls(deadline, calls), call.limit, call.now).1
  }

  /** How many charges with readings in [from, to] were answered with no refusal. */
  function PassedWithin(deadline: Option<int>, calls: seq<Call>, from: int, to: int): nat {
    if calls == [] then 0
    else
      var before, last := calls[..|calls| - 1], calls[|calls| - 1];
      PassedWithin(deadline, before, from, to)
      + if from <= last.now <= to && AnswerAfter(deadline, before, last).None? then 1 else 0
  }

  lemma LimitStep(limit: u32, nows: seq<int>)
    requires nows != []
    ensures var calls := AtLimit(limit, nows);
            calls[..|calls| - 1] == AtLimit(limit, nows[..|nows| - 1])
            && calls[|calls| - 1] == Call(limit, nows[|nows| - 1])
  {
  }

  /** Charges at a positive limit are the run the bounds are about: the same deadlines, and a charge
      passes exactly when that run admits it. */
  lemma {:induction false} ChargesAreTheRun(deadline: Option<int>, limit: u32, nows: seq<int>, from: int, to: int)
    requires limit > 0
    ensures RunCalls(deadline, AtLimit(limit, nows)) == Run(deadline, RateOf(limit), nows)
    ensures PassedWithin(deadline, AtLimit(limit, nows), from, to)
            == AdmittedWithin(deadline, RateOf(limit), nows, from, to)
    decreases |nows|
  {
    if nows != [] {
      ChargesAreTheRun(deadline, limit, nows[..|nows| - 1], from, to);
      LimitStep(limit, nows);
    }
  }

  /** The window bound for charges: k of them that pass with readings in an interval of length D
      satisfy (k - 1) * interval <= D + (limit - 1) * interval, for readings in any order. */
  lemma ChargesInAWindow(deadline: Option<int>, limit: u32, nows: seq<int>, from: int, to: int)
    requires limit > 0
    ensures var k, interval := PassedWithin(deadline, AtLimit(limit, nows), from, to), WINDOW / limit as int;
            k > 0 ==> (k - 1) * interval <= (to - from) + (limit as int - 1) * interval
  {
    var rate := RateOf(limit);
    ChargesAreTheRun(deadline, limit, nows, from, to);
    WindowBound(deadline, rate, nows, from, to);
    var k := AdmittedWithin(deadline, rate, nows, from, to);
    if k > 0 { TimesIsProduct(k - 1, rate.gap); }
    TimesIsProduct(limit as int - 1, rate.gap);
  }

  /** Of n charges at one reading exactly the first `limit` pass, if nothing is owed then. */
  lemma ChargesInABurst(deadline: Option<int>, limit: u32, now: int, n: nat)
    requires limit > 0 && (deadline.Some? ==> deadline.value <= now)
    ensures PassedWithin(deadline, AtLimit(limit, Simultaneous(now, n)), now, now)
            == if n < limit as int then n else limit as int
  {
    RateFitsWindow(limit);
    ChargesAreTheRun(deadline, limit, Simultaneous(now, n), now, now);
    FullBurst(deadline, RateOf(limit), now, n);
  }

  /** Which charges of a run pass. */
  function Answers(deadline: Option<int>, limit: u32, nows: seq<int>): seq<bool>
    decreases |nows|
  {
    if nows == [] then []
    else
      var (after, refused) := Charged(deadline, limit, nows[0]);
      [refused.None?] + Answers(after, limit, nows[1..])
  }

  lemma {:induction false} AnswersAreDecisions(deadline: Option<int>, limit: u32, nows: seq<int>)
    requires limit > 0
    ensures Answers(deadline, limit, nows) == MeterDecisions(deadline, RateOf(limit), nows)
    decreases |nows|
  {
    if nows != [] {
      AnswersAreDecisions(After(deadline, RateOf(limit), nows[0]), limit, nows[1..]);
    }
  }

  /** With a clock that does not step back, a charge passes exactly when a bucket of `limit`
      intervals, full at the start and refilled by a nanosecond each nanosecond, can pay one. */
  lemma ChargesAreABucket(limit: u32, at: int, nows: seq<int>)
    requires limit > 0 && MonotoneFrom(at, nows)
    ensures var interval := WINDOW / limit as int;
            Answers(None, limit, nows)
            == BucketDecisions(Bucket(limit as int * interval, at), Rate(interval, limit as int), nows)
  {
    AnswersAreDecisions(None, limit, nows);
    RefinesTokenBucket(None, RateOf(limit), at, nows);
    TimesIsProduct(limit as int, WINDOW / limit as int);
  }

  /** A limit of 0 lets every call through, whatever is owed, and costs nothing. */
  lemma NoLimitNoRefusal(deadline: Option<int>, now: int)
    ensures Charged(deadline, 0, now) == (deadline, None)
  {
  }
}
