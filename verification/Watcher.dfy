/** The upgrade watcher: one poll of the binary's path as a state machine, what its answers mean
    in terms of the polls alone, and the guard that is carried from one process to the next. */
module Watcher {
  import opened Common

  /** Seconds in which a restart for the same binary counts as a loop. */
  const RESTART_COOLDOWN: nat := 600

  const SECOND: nat := 1_000_000_000

  /** What a file looked like: its modification time in nanoseconds, where there is one, and its
      size. None is a path that cannot be looked at. */
  datatype FileStamp = FileStamp(mtime: Option<int>, len: nat)

  type Stamp = Option<FileStamp>

  /** The same to the second, as it is written down. */
  datatype ExeStamp = ExeStamp(mtime: Option<nat>, len: nat)

  datatype Restart = Restart(stamp: ExeStamp, at: nat)

  datatype Outcome = Unchanged | Gone | Throttled | Unrunnable(reason: string) | Replaced(restart: Restart)

  /** One poll: what is found, why it would not run (None if it does), and the clock in seconds. */
  datatype Poll = Poll(stat: Stamp, fault: Option<string>, now: nat)

  function Coarse(f: FileStamp): ExeStamp {
    ExeStamp(match f.mtime
             case None => None
             case Some(t) => if t < 0 then None else Some(t / SECOND),
             f.len)
  }

  function RestartFor(f: FileStamp, now: nat): Restart { Restart(Coarse(f), now) }

  function SaturatingSub(a: nat, b: nat): nat { if a < b then 0 else a - b }

  predicate Refused(guard: Option<Restart>, restart: Restart, now: nat) {
    guard.Some? && guard.value.stamp == restart.stamp && SaturatingSub(now, guard.value.at) < RESTART_COOLDOWN
  }

  // ---- the state machine ----

  datatype Memory = Memory(seen: Stamp, candidate: Stamp, gone: bool, throttled: bool, guard: Option<Restart>)

  /** What a poll leaves, what it concludes, and whether it had the file run. */
  datatype Ticked = Ticked(memory: Memory, outcome: Outcome, verified: bool)

  class BinaryWatcher {
    var seen: Stamp
    var candidate: Stamp
    var gone: bool
    var throttled: bool
    const guard: Option<Restart>

    constructor (start: Stamp, guard: Option<Restart>)
      ensures State() == Fresh(start, guard)
    {
      seen, candidate, gone, throttled := start, None, false, false;
      this.guard := guard;
    }

    ghost function State(): Memory
      reads this
    {
      Memory(seen, candidate, gone, throttled, guard)
    }

    method Tick(p: Poll) returns (outcome: Outcome, verified: bool)
      modifies this
      ensures Ticked(State(), outcome, verified) == Step(old(State()), p)
    {
      verified := false;
      if p.stat.None? {
        candidate := None;
        outcome := if gone then Unchanged else Gone;
        gone := true;
        return;
      }
      gone := false;
      if p.stat == seen {
        candidate := None;
        return Unchanged, false;
      }
      if candidate != p.stat {
        candidate := p.stat;
        return Unchanged, false;
      }
      candidate := None;
      seen := p.stat;
      var restart := RestartFor(p.stat.value, p.now);
      if Refused(guard, restart, p.now) {
        outcome := if throttled then Unchanged else Throttled;
        throttled := true;
        return;
      }
      verified := true;
      outcome := if p.fault.Some? then Unrunnable(p.fault.value) else Replaced(restart);
    }
  }

  function Fresh(start: Stamp, guard: Option<Restart>): Memory {
    Memory(start, None, false, false, guard)
  }

  function Step(m: Memory, p: Poll): Ticked {
    if p.stat.None? then
      Ticked(m.(candidate := None, gone := true), if m.gone then Unchanged else Gone, false)
    else if p.stat == m.seen then
      Ticked(m.(candidate := None, gone := false), Unchanged, false)
    else if m.candidate != p.stat then
      Ticked(m.(candidate := p.stat, gone := false), Unchanged, false)
    else
      var restart := RestartFor(p.stat.value, p.now);
      var settled := m.(candidate := None, gone := false, seen := p.stat);
      if Refused(m.guard, restart, p.now) then
        Ticked(settled.(throttled := true), if m.throttled then Unchanged else Throttled, false)
      else
        Ticked(settled, if p.fault.Some? then Unrunnable(p.fault.value) else Replaced(restart), true)
  }

  /** What a watcher remembers after a run of polls. */
  function After(start: Stamp, guard: Option<Restart>, polls: seq<Poll>): Memory {
    if polls == [] then Fresh(start, guard)
    else Step(After(start, guard, polls[..|polls| - 1]), polls[|polls| - 1]).memory
  }

  /** What it answers to the i-th of them. */
  function At(start: Stamp, guard: Option<Restart>, polls: seq<Poll>, i: nat): Ticked
    requires i < |polls|
  {
    Step(After(start, guard, polls[..i]), polls[i])
  }

  // ---- the same in terms of the polls alone ----

  /** The stamp a watcher is content with: the first, or the last one seen twice in a row. */
  function Accepted(start: Stamp, polls: seq<Poll>): Stamp
    decreases |polls|, 0
  {
    if polls == [] then start
    else if Confirmed(start, polls, |polls| - 1) then polls[|polls| - 1].stat
    else Accepted(start, polls[..|polls| - 1])
  }

  /** Poll i finds a file, the one the poll before found, and not the accepted one. */
  predicate Confirmed(start: Stamp, polls: seq<Poll>, i: nat)
    requires i < |polls|
    decreases i, 1
  {
    i > 0 && polls[i].stat.Some? && polls[i].stat == polls[i - 1].stat && polls[i].stat != Accepted(start, polls[..i])
  }

  predicate RefusedAt(guard: Option<Restart>, p: Poll) {
    p.stat.Some? && Refused(guard, RestartFor(p.stat.value, p.now), p.now)
  }

  lemma {:induction false} Remembers(start: Stamp, guard: Option<Restart>, polls: seq<Poll>)
    ensures var m := After(start, guard, polls);
            var last := if polls == [] then start else polls[|polls| - 1].stat;
            && m.seen == Accepted(start, polls)
            && m.candidate == (if polls != [] && last != m.seen then last else None)
            && m.gone == (polls != [] && last == None)
            && m.guard == guard
    decreases |polls|
  {
    if polls != [] {
      var n := |polls| - 1;
      Remembers(start, guard, polls[..n]);
      if n > 0 { assert polls[..n][n - 1] == polls[n - 1]; }
    }
  }

  /** Every answer, read off the polls: gone at the first poll that finds nothing, a verification
      at a confirmed change that is not refused, and nothing in between. */
  lemma Answers(start: Stamp, guard: Option<Restart>, polls: seq<Poll>, i: nat)
    requires i < |polls|
    ensures var t := At(start, guard, polls, i);
            && (t.outcome == Gone <==> polls[i].stat == None && (i > 0 ==> polls[i - 1].stat.Some?))
            && (t.verified <==> Confirmed(start, polls, i) && !RefusedAt(guard, polls[i]))
            && (t.outcome.Unrunnable? <==> t.verified && polls[i].fault.Some?)
            && (t.outcome.Replaced? <==> t.verified && polls[i].fault.None?)
            && (t.outcome.Throttled? ==> Confirmed(start, polls, i) && RefusedAt(guard, polls[i]))
  {
    Remembers(start, guard, polls[..i]);
  }

  /** A gateway stands aside only for a file found by two polls in a row that is not the one it
      accepted, that ran when it was tried, and that the process before did not just restart for. */
  lemma ReplacedOnlyWhenSure(start: Stamp, guard: Option<Restart>, polls: seq<Poll>, i: nat)
    requires i < |polls|
    ensures At(start, guard, polls, i).outcome.Replaced? <==>
              && i > 0 && polls[i].stat.Some? && polls[i].stat == polls[i - 1].stat
              && polls[i].stat != Accepted(start, polls[..i]) && polls[i].fault.None?
              && !(guard.Some? && guard.value.stamp == Coarse(polls[i].stat.value)
                   && polls[i].now < guard.value.at + RESTART_COOLDOWN)
    ensures At(start, guard, polls, i).outcome.Replaced? ==>
              At(start, guard, polls, i).outcome.restart == Restart(Coarse(polls[i].stat.value), polls[i].now)
  {
    Answers(start, guard, polls, i);
  }

  /** Between two confirmed changes into one file, another file was confirmed. */
  lemma {:induction false} ConfirmedOnce(start: Stamp, polls: seq<Poll>, i: nat, j: nat)
    requires i < j < |polls| && polls[i].stat == polls[j].stat
    requires Confirmed(start, polls, i) && Confirmed(start, polls, j)
    ensures exists k :: i < k < j && Confirmed(start, polls, k) && polls[k].stat != polls[i].stat
  {
    StaysAccepted(start, polls, i, j);
  }

  lemma {:induction false} StaysAccepted(start: Stamp, polls: seq<Poll>, i: nat, j: nat)
    requires i < j <= |polls| && Confirmed(start, polls, i)
    ensures Accepted(start, polls[..j]) == polls[i].stat
            || exists k :: i < k < j && Confirmed(start, polls, k) && polls[k].stat != polls[i].stat
    decreases j
  {
    var p := polls[..j];
    assert p[..j - 1] == polls[..j - 1];
    assert Confirmed(start, p, j - 1) == Confirmed(start, polls, j - 1);
    if j - 1 > i { StaysAccepted(start, polls, i, j - 1); }
  }

  /** A file is run at most once for each confirmed change into it. */
  lemma VerifiedOncePerChange(start: Stamp, guard: Option<Restart>, polls: seq<Poll>, i: nat, j: nat)
    requires i < j < |polls| && polls[i].stat == polls[j].stat
    requires At(start, guard, polls, i).verified && At(start, guard, polls, j).verified
    ensures exists k :: i < k < j && Confirmed(start, polls, k) && polls[k].stat != polls[i].stat
  {
    Answers(start, guard, polls, i);
    Answers(start, guard, polls, j);
    ConfirmedOnce(start, polls, i, j);
  }

  /** Gone is said once per disappearance: between two of them the file was back. */
  lemma GoneOncePerDisappearance(start: Stamp, guard: Option<Restart>, polls: seq<Poll>, i: nat, j: nat)
    requires i < j < |polls|
    requires At(start, guard, polls, i).outcome == Gone && At(start, guard, polls, j).outcome == Gone
    ensures exists k :: i < k < j && polls[k].stat.Some?
  {
    Answers(start, guard, polls, i);
    Answers(start, guard, polls, j);
    assert polls[j - 1].stat.Some?;
  }

  lemma {:induction false} ThrottledStays(start: Stamp, guard: Option<Restart>, polls: seq<Poll>, i: nat, j: nat)
    requires i < j <= |polls| && At(start, guard, polls, i).outcome == Throttled
    ensures After(start, guard, polls[..j]).throttled
    decreases j
  {
    assert polls[..j][..j - 1] == polls[..j - 1];
    if j - 1 > i { ThrottledStays(start, guard, polls, i, j - 1); }
  }

  /** Throttled is said once in a watcher's life. */
  lemma ThrottledOnce(start: Stamp, guard: Option<Restart>, polls: seq<Poll>, i: nat, j: nat)
    requires i < j < |polls| && At(start, guard, polls, i).outcome == Throttled
    ensures At(start, guard, polls, j).outcome != Throttled
  {
    ThrottledStays(start, guard, polls, i, j);
  }

  // ---- from process to process ----

  /** One process: what it starts from, what it polls, and the restart it ends with. */
  datatype Life = Life(start: Stamp, polls: seq<Poll>, restart: Restart)

  ghost predicate Lived(guard: Option<Restart>, l: Life) {
    && l.polls != []
    && At(l.start, guard, l.polls, |l.polls| - 1).outcome == Replaced(l.restart)
    && forall i :: 0 <= i < |l.polls| - 1 ==> !At(l.start, guard, l.polls, i).outcome.Replaced?
  }

  /** Each process is handed the restart the one before it recorded. */
  ghost predicate Chain(guard: Option<Restart>, lives: seq<Life>)
    decreases |lives|
  {
    lives == [] || (Lived(guard, lives[0]) && Chain(Some(lives[0].restart), lives[1..]))
  }

  lemma {:induction false} ChainLived(guard: Option<Restart>, lives: seq<Life>, k: nat)
    requires Chain(guard, lives) && k < |lives|
    ensures Lived(if k == 0 then guard else Some(lives[k - 1].restart), lives[k])
    decreases k
  {
    if k > 0 { ChainLived(Some(lives[0].restart), lives[1..], k - 1); }
  }

  /** Two restarts in succession for one binary are at least ten minutes apart, whatever the
      clock does in between. */
  lemma RestartsAreApart(guard: Option<Restart>, lives: seq<Life>, k: nat)
    requires Chain(guard, lives) && k + 1 < |lives| && lives[k].restart.stamp == lives[k + 1].restart.stamp
    ensures lives[k + 1].restart.at >= lives[k].restart.at + RESTART_COOLDOWN
  {
    ChainLived(guard, lives, k + 1);
    var l := lives[k + 1];
    ReplacedOnlyWhenSure(l.start, Some(lives[k].restart), l.polls, |l.polls| - 1);
  }

  /** What a process that starts on `from` and is replaced by `to` polls, a second apart. */
  function Swap(from: FileStamp, to: FileStamp, now: nat): Life {
    Life(Some(from), [Poll(Some(to), None, now), Poll(Some(to), None, now + 1)], RestartFor(to, now + 1))
  }

  lemma SwapLives(guard: Option<Restart>, from: FileStamp, to: FileStamp, now: nat)
    requires from != to && (guard.Some? ==> guard.value.stamp != Coarse(to))
    ensures Lived(guard, Swap(from, to, now))
  {
    var l := Swap(from, to, now);
    assert l.polls[..0] == [] && l.polls[..1] == [l.polls[0]];
    assert l.polls[..1][..0] == [];
    Answers(l.start, guard, l.polls, 0);
    Answers(l.start, guard, l.polls, 1);
  }

  /** Two binaries that replace each other in turn. */
  function Flap(a: FileStamp, b: FileStamp, now: nat, n: nat): seq<Life>
    decreases n
  {
    if n == 0 then [] else [Swap(a, b, now)] + Flap(b, a, now + 2, n - 1)
  }

  /** The guard knows the last restart only: two binaries taking turns are restarted for every
      time, two seconds apart, however long it goes on. */
  lemma {:induction false} FlappingIsNotThrottled(guard: Option<Restart>, a: FileStamp, b: FileStamp, now: nat, n: nat)
    requires Coarse(a) != Coarse(b) && (guard.Some? ==> guard.value.stamp == Coarse(a))
    ensures Chain(guard, Flap(a, b, now, n)) && |Flap(a, b, now, n)| == n
    ensures forall k :: 0 <= k < n ==> Flap(a, b, now, n)[k].restart.at == now + 2 * k + 1
    ensures forall k :: 0 <= k < n - 2 ==>
              Flap(a, b, now, n)[k].restart.stamp == Flap(a, b, now, n)[k + 2].restart.stamp
    decreases n
  {
    if n > 0 {
      SwapLives(guard, a, b, now);
      FlappingIsNotThrottled(Some(RestartFor(b, now + 1)), b, a, now + 2, n - 1);
      var rest := Flap(b, a, now + 2, n - 1);
      assert Flap(a, b, now, n)[1..] == rest;
      if n > 2 {
        assert rest[1..] == Flap(a, b, now + 4, n - 2);
        assert rest[1] == Swap(a, b, now + 4);
      }
    }
  }

  // ---- read off the polls and the clock ----

  /** Poll `j` confirms a change the guard refuses: the binary the process before was started for,
      less than ten minutes after. */
  predicate TurnedAway(start: Stamp, guard: Option<Restart>, polls: seq<Poll>, j: nat)
    requires j < |polls|
  {
    && Confirmed(start, polls, j) && guard.Some? && polls[j].now < guard.value.at + 600
    && Coarse(polls[j].stat.value) == guard.value.stamp
  }

  lemma RefusedIsTurnedAway(start: Stamp, guard: Option<Restart>, polls: seq<Poll>, j: nat)
    requires j < |polls|
    ensures Confirmed(start, polls, j) && RefusedAt(guard, polls[j]) <==> TurnedAway(start, guard, polls, j)
  {
  }

  lemma ConfirmedBefore(start: Stamp, polls: seq<Poll>, n: nat, j: nat)
    requires j < n <= |polls|
    ensures Confirmed(start, polls[..n], j) == Confirmed(start, polls, j)
  {
    assert polls[..n][..j] == polls[..j];
  }

  lemma {:induction false} ThrottledSince(start: Stamp, guard: Option<Restart>, polls: seq<Poll>)
    ensures After(start, guard, polls).throttled <==>
              exists j :: 0 <= j < |polls| && TurnedAway(start, guard, polls, j)
    decreases |polls|
  {
    if polls != [] {
      var n := |polls| - 1;
      ThrottledSince(start, guard, polls[..n]);
      Remembers(start, guard, polls[..n]);
      RefusedIsTurnedAway(start, guard, polls, n);
      forall j | 0 <= j < n
        ensures TurnedAway(start, guard, polls[..n], j) == TurnedAway(start, guard, polls, j)
      {
        ConfirmedBefore(start, polls, n, j);
      }
    }
  }

  lemma ThrottledBefore(start: Stamp, guard: Option<Restart>, polls: seq<Poll>, i: nat)
    requires i <= |polls|
    ensures After(start, guard, polls[..i]).throttled <==>
              exists j :: 0 <= j < i && TurnedAway(start, guard, polls, j)
  {
    ThrottledSince(start, guard, polls[..i]);
    forall j | 0 <= j < i ensures TurnedAway(start, guard, polls[..i], j) == TurnedAway(start, guard, polls, j) {
      ConfirmedBefore(start, polls, i, j);
    }
  }

  /** A refusal is reported at the first one, and only there. */
  lemma ReportedRefusal(start: Stamp, guard: Option<Restart>, polls: seq<Poll>, i: nat)
    requires i < |polls|
    ensures At(start, guard, polls, i).outcome == Throttled <==>
              TurnedAway(start, guard, polls, i) && !exists j :: 0 <= j < i && TurnedAway(start, guard, polls, j)
  {
    Remembers(start, guard, polls[..i]);
    ThrottledBefore(start, guard, polls, i);
    RefusedIsTurnedAway(start, guard, polls, i);
  }

  /** Passed over is everything else: a later refusal, a file that is accepted or was just found, and
      a file that is still gone. */
  lemma PassedOver(start: Stamp, guard: Option<Restart>, polls: seq<Poll>, i: nat)
    requires i < |polls|
    ensures At(start, guard, polls, i).outcome == Unchanged <==>
              if TurnedAway(start, guard, polls, i) then exists j :: 0 <= j < i && TurnedAway(start, guard, polls, j)
              else !Confirmed(start, polls, i) && (polls[i].stat == None ==> i > 0 && polls[i - 1].stat == None)
  {
    Answers(start, guard, polls, i);
    ReportedRefusal(start, guard, polls, i);
    RefusedIsTurnedAway(start, guard, polls, i);
  }

  /** A stamp as it is written down: the size, and the whole seconds since the epoch if there are any. */
  lemma CoarseIsTheSecond(f: FileStamp, s: nat)
    ensures Coarse(f).len == f.len
    ensures Coarse(f).mtime == Some(s)
            <==> f.mtime.Some? && s * 1_000_000_000 <= f.mtime.value < (s + 1) * 1_000_000_000
    ensures Coarse(f).mtime == None <==> f.mtime.None? || f.mtime.value < 0
  {
    if f.mtime.Some? && f.mtime.value >= 0 {
      var q := f.mtime.value / SECOND;
      assert q * SECOND <= f.mtime.value < (q + 1) * SECOND;
    }
  }
}
