/** Nobody who waits for a slot waits for ever. */
module SlotWakeups {
  import opened Common
  import opened SlotProtocol
  import opened SlotInvariant

  /** No lost wakeup: a caller that is parked and was not woken waits on a claim whose maker
      still runs its ladder or is about to wake everybody. */
  lemma NoLostWakeup(s: State, p: nat)
    requires Reachable(s)
    requires p in s.procs && s.procs[p].Parked? && !s.procs[p].woken
    ensures WakeupPending(s, s.procs[p].claim)
  {
    ReachableInv(s);
    assert PcOk(s, p, s.procs[p]);
  }

  ghost predicate Waits(s: State, p: nat, f: nat) {
    p in s.procs && s.procs[p] == Parked(f, false) && WakeupPending(s, f)
  }

  predicate StepOf(a: Action, p: nat) { !a.Die? && a.p == p }

  /** A step of the lock holder or of the maker of claim `f`. */
  ghost predicate StepTowards(s: State, f: nat, a: Action)
    requires f < |s.owner|
  {
    StepOf(a, s.owner[f]) || (s.lock.Some? && StepOf(a, s.lock.value))
  }

  /** How many more steps of the lock holder and of the maker of claim `f` it takes. */
  ghost function Distance(s: State, f: nat): nat
    requires WakeupPending(s, f)
  {
    match s.procs[s.owner[f]]
    case Dialing(_, _) => 6 + LockDistance(s)
    case Landing(_, _) => 5 + LockDistance(s)
    case Landed(_, _) => 4
    case Judged(_, _, _) => 3
    case Published(_, _) => 2
    case _ => 1
  }

  ghost function LockDistance(s: State): nat {
    if s.lock.None? || s.lock.value !in s.procs then 0
    else if s.procs[s.lock.value].Looking? || s.procs[s.lock.value].Landed? then 2 else 1
  }

  /** The next step of the process that holds the lock. */
  ghost function Unlocking(s: State): Action
    requires s.lock.Some? && s.lock.value in s.procs
  {
    match s.procs[s.lock.value]
    case Looking(_) => ReadRetired(s.lock.value)
    case Admitted(_) => Look(s.lock.value)
    case Landed(_, _) => Judge(s.lock.value)
    case _ => Publish(s.lock.value)
  }

  /** The next step towards the wakeup the maker of claim `f` owes, when the lock is not in its way. */
  ghost function Towards(s: State, f: nat): Action
    requires WakeupPending(s, f)
  {
    var p := s.owner[f];
    match s.procs[p]
    case Dialing(_, _) => LadderEnds(p, Refused)
    case Landing(_, _) => Lock(p)
    case Landed(_, _) => Judge(p)
    case Judged(_, _, _) => Publish(p)
    case Published(_, _) => Disarm(p)
    case _ => Notify(p)
  }

  lemma HolderReads(s: State, p: nat, f: nat)
    requires Waits(s, p, f) && s.procs[s.owner[f]].Landing?
    requires s.lock.Some? && s.lock.value in s.procs && s.procs[s.lock.value].Looking?
    ensures var t := Apply(s, ReadRetired(s.lock.value));
            Waits(t, p, f) && Distance(t, f) < Distance(s, f)
  {
  }

  lemma HolderLooks(s: State, p: nat, f: nat)
    requires Waits(s, p, f) && s.procs[s.owner[f]].Landing?
    requires s.lock.Some? && s.lock.value in s.procs && s.procs[s.lock.value].Admitted?
    ensures var t := Apply(s, Look(s.lock.value));
            Waits(t, p, f) && Distance(t, f) < Distance(s, f)
  {
  }

  lemma HolderJudges(s: State, p: nat, f: nat)
    requires Waits(s, p, f) && s.procs[s.owner[f]].Landing?
    requires s.lock.Some? && s.lock.value in s.procs && s.procs[s.lock.value].Landed?
    ensures var t := Apply(s, Judge(s.lock.value));
            Waits(t, p, f) && Distance(t, f) < Distance(s, f)
  {
  }

  lemma HolderPublishes(s: State, p: nat, f: nat)
    requires Waits(s, p, f) && s.procs[s.owner[f]].Landing?
    requires s.lock.Some? && s.lock.value in s.procs && s.procs[s.lock.value].Judged?
    ensures var t := Apply(s, Publish(s.lock.value));
            Waits(t, p, f) && Distance(t, f) < Distance(s, f)
  {
  }

  lemma HolderSteps(s: State, p: nat, f: nat)
    requires Waits(s, p, f) && s.procs[s.owner[f]].Landing?
    requires s.lock.Some? && s.lock.value in s.procs && HoldsLock(s.procs[s.lock.value])
    ensures Enabled(s, Unlocking(s))
    ensures var t := Apply(s, Unlocking(s));
            Waits(t, p, f) && Distance(t, f) < Distance(s, f)
  {
    match s.procs[s.lock.value]
    case Looking(_) => HolderReads(s, p, f);
    case Admitted(_) => HolderLooks(s, p, f);
    case Landed(_, _) => HolderJudges(s, p, f);
    case _ => HolderPublishes(s, p, f);
  }

  lemma DialingSteps(s: State, p: nat, f: nat)
    requires Waits(s, p, f) && s.procs[s.owner[f]].Dialing?
    ensures var t := Apply(s, LadderEnds(s.owner[f], Refused));
            Waits(t, p, f) && Distance(t, f) < Distance(s, f)
  {
  }

  lemma LandingSteps(s: State, p: nat, f: nat)
    requires Waits(s, p, f) && s.procs[s.owner[f]].Landing? && s.lock.None?
    ensures var t := Apply(s, Lock(s.owner[f]));
            Waits(t, p, f) && Distance(t, f) < Distance(s, f)
  {
  }

  lemma LandedSteps(s: State, p: nat, f: nat)
    requires Waits(s, p, f) && s.procs[s.owner[f]].Landed?
    ensures var t := Apply(s, Judge(s.owner[f]));
            Waits(t, p, f) && Distance(t, f) < Distance(s, f)
  {
  }

  lemma JudgedSteps(s: State, p: nat, f: nat)
    requires Waits(s, p, f) && s.procs[s.owner[f]].Judged?
    ensures var t := Apply(s, Publish(s.owner[f]));
            Waits(t, p, f) && Distance(t, f) < Distance(s, f)
  {
  }

  lemma PublishedSteps(s: State, p: nat, f: nat)
    requires Waits(s, p, f) && s.procs[s.owner[f]].Published?
    ensures var t := Apply(s, Disarm(s.owner[f]));
            Waits(t, p, f) && Distance(t, f) < Distance(s, f)
  {
  }

  lemma MakerSteps(s: State, p: nat, f: nat)
    requires Waits(s, p, f) && Distance(s, f) > 1
    requires s.procs[s.owner[f]].Landing? ==> s.lock.None?
    ensures Enabled(s, Towards(s, f))
    ensures var t := Apply(s, Towards(s, f));
            Waits(t, p, f) && Distance(t, f) < Distance(s, f)
  {
    match s.procs[s.owner[f]]
    case Dialing(_, _) => DialingSteps(s, p, f);
    case Landing(_, _) => LandingSteps(s, p, f);
    case Landed(_, _) => LandedSteps(s, p, f);
    case Judged(_, _, _) => JudgedSteps(s, p, f);
    case Published(_, _) => PublishedSteps(s, p, f);
    case _ =>
  }

  lemma ClaimsAdd(s: State, a: Action)
    requires Enabled(s, a) && !a.Die?
    ensures Apply(s, a).owner == s.owner || Apply(s, a).owner == s.owner + [a.p]
  {
  }

  lemma LockMoves(s: State, a: Action)
    requires Enabled(s, a) && !a.Die?
    ensures Apply(s, a).lock == None || Apply(s, a).lock == s.lock || Apply(s, a).lock == Some(a.p)
  {
  }

  /** Such a step brings nobody else into play. */
  lemma NobodyElse(s: State, f: nat, a: Action)
    requires Enabled(s, a) && f < |s.owner| && StepTowards(s, f, a)
    ensures f < |Apply(s, a).owner|
    ensures forall b :: StepTowards(Apply(s, a), f, b) ==> StepTowards(s, f, b)
  {
    ClaimsAdd(s, a);
    LockMoves(s, a);
  }

  /** While the wakeup is more than one step away, a step brings it closer. */
  lemma Closer(s: State, p: nat, f: nat) returns (a: Action)
    requires Inv(s) && Waits(s, p, f) && Distance(s, f) > 1
    ensures Enabled(s, a) && Inv(Apply(s, a))
    ensures Waits(Apply(s, a), p, f) && Distance(Apply(s, a), f) < Distance(s, f)
    ensures StepTowards(s, f, a) && forall b :: StepTowards(Apply(s, a), f, b) ==> StepTowards(s, f, b)
  {
    if s.procs[s.owner[f]].Landing? && s.lock.Some? {
      a := Unlocking(s);
      HolderSteps(s, p, f);
    } else {
      a := Towards(s, f);
      MakerSteps(s, p, f);
    }
    NobodyElse(s, f, a);
    InvariantStep(s, a);
  }

  /** No wedge: from every reachable state a parked caller is at most eight steps from being
      woken, and none of them is a step of anybody but the lock holder and the ladder it
      waits for. */
  lemma {:induction false} WakeupReachable(s: State, p: nat, f: nat) returns (run: seq<Action>, t: State)
    requires Inv(s) && Waits(s, p, f)
    ensures Steps(s, run, t) && |run| <= Distance(s, f) <= 8
    ensures p in t.procs && t.procs[p] == Parked(f, true)
    ensures forall i :: 0 <= i < |run| ==> StepTowards(s, f, run[i])
    decreases Distance(s, f)
  {
    if Distance(s, f) == 1 {
      t := AfterNotify(s, s.owner[f]);
      run := Before(s, Notify(s.owner[f]), [], t);
    } else {
      var a := Closer(s, p, f);
      var rest;
      rest, t := WakeupReachable(Apply(s, a), p, f);
      run := Before(s, a, rest, t);
    }
  }

  /** No wedge, for reachable states: a parked caller can be woken in at most eight steps. */
  lemma NoWedge(s: State, p: nat)
    requires Reachable(s) && p in s.procs && s.procs[p].Parked? && !s.procs[p].woken
    ensures exists run, t :: Steps(s, run, t) && |run| <= 8 && p in t.procs
              && t.procs[p] == Parked(s.procs[p].claim, true)
  {
    ReachableInv(s);
    NoLostWakeup(s, p);
    var run, t := WakeupReachable(s, p, s.procs[p].claim);
  }

  /** A demand that finds the lock free, the entry in service and nothing to take or wait for
      owns the slot five steps later. */
  lemma DemandClaims(s: State, p: nat) returns (run: seq<Action>, t: State)
    requires p !in s.procs && s.lock.None? && !s.retired
    requires LookAt(s.slot, s.live, s.dead, |s.owner|).1.Own?
    ensures Steps(s, run, t) && |run| == 5
    ensures var attempts := LookAt(s.slot, s.live, s.dead, |s.owner|).1.attempts;
            t == At(s, p, Dialing(|s.owner|, attempts)).(slot := Connecting(|s.owner|),
                    owner := s.owner + [p], live := s.live + {|s.owner|})
    ensures forall i :: 0 <= i < |run| ==> StepOf(run[i], p)
  {
    var arrived := ArrivedAt(s, p);
    run := Arrives(s, p);
    var rest;
    rest, t := Claims(arrived, p);
    StepsCompose(s, run, arrived, rest, t);
    run := run + rest;
    assert t.procs == s.procs[p := t.procs[p]];
  }

  /** A demand that has taken the lock. */
  function ArrivedAt(s: State, p: nat): State { At(s, p, Looking(false)).(lock := Some(p)) }

  lemma Arrives(s: State, p: nat) returns (run: seq<Action>)
    requires p !in s.procs && s.lock.None?
    ensures Steps(s, run, ArrivedAt(s, p)) && |run| == 3 && forall i :: 0 <= i < |run| ==> StepOf(run[i], p)
  {
    var s1, s2 := At(s, p, Entering), At(s, p, Registered(false));
    assert s1.procs[p := Registered(false)] == s2.procs && s2.procs[p := Looking(false)] == ArrivedAt(s, p).procs;
    run := Before(s2, Lock(p), [], ArrivedAt(s, p));
    run := Before(s1, Register(p), run, ArrivedAt(s, p));
    run := Before(s, Call(p), run, ArrivedAt(s, p));
  }

  lemma Claims(s: State, p: nat) returns (run: seq<Action>, t: State)
    requires p in s.procs && s.procs[p] == Looking(false) && s.lock == Some(p) && !s.retired
    requires LookAt(s.slot, s.live, s.dead, |s.owner|).1.Own?
    ensures Steps(s, run, t) && |run| == 2 && forall i :: 0 <= i < |run| ==> StepOf(run[i], p)
    ensures var attempts := LookAt(s.slot, s.live, s.dead, |s.owner|).1.attempts;
            t == At(s, p, Dialing(|s.owner|, attempts)).(slot := Connecting(|s.owner|), lock := None,
                    owner := s.owner + [p], live := s.live + {|s.owner|})
  {
    var s1 := At(s, p, Admitted(false));
    t := AfterLook(s1, p);
    assert t.procs == s.procs[p := t.procs[p]];
    run := Before(s1, Look(p), [], t);
    run := Before(s, ReadRetired(p), run, t);
  }

  lemma Before(s: State, a: Action, rest: seq<Action>, t: State) returns (run: seq<Action>)
    requires Enabled(s, a) && Steps(Apply(s, a), rest, t)
    ensures Steps(s, run, t) && run == [a] + rest
  {
    run := [a] + rest;
    assert run[1..] == rest;
  }

  /** An abandoned claim blocks nobody: whatever a dropped ladder left in the slot, a demand
      that arrives on an unlocked entry still in service gets a full ladder of its own. */
  lemma AbandonedClaimIsTakenOver(s: State, p: nat)
    requires p !in s.procs && s.lock.None? && !s.retired
    requires s.slot.Connecting? && s.slot.claim !in s.live
    ensures exists run, t :: Steps(s, run, t) && |run| == 5 && t.slot == Connecting(|s.owner|)
                             && p in t.procs && t.procs[p] == Dialing(|s.owner|, ATTEMPTS)
  {
    var run, t := DemandClaims(s, p);
  }

  lemma {:induction false} StepsCompose(s: State, xs: seq<Action>, t: State, ys: seq<Action>, u: State)
    requires Steps(s, xs, t) && Steps(t, ys, u)
    ensures Steps(s, xs + ys, u)
    decreases |xs|
  {
    if xs == [] {
      assert xs + ys == ys;
    } else {
      assert (xs + ys)[0] == xs[0] && (xs + ys)[1..] == xs[1..] + ys;
      StepsCompose(Apply(s, xs[0]), xs[1..], t, ys, u);
    }
  }

  /** In every state with a running ladder, an unlocked slot and an entry still in service, a
      shutdown by `a` and then a demand by `b` start a second ladder beside the first. */
  lemma ShutdownLetsASecondLadderStart(s: State, p: nat, a: nat, b: nat) returns (run: seq<Action>, t: State)
    requires p in s.procs && Trying(s.procs[p]) && s.lock.None? && !s.retired
    requires a !in s.procs && b !in s.procs && a != b
    ensures Steps(s, run, t) && |run| == 7
    ensures p in t.procs && b in t.procs && p != b && Trying(t.procs[p]) && Trying(t.procs[b])
    ensures t.severed && !t.retired
    ensures forall i :: 0 <= i < |run| ==> StepOf(run[i], a) || StepOf(run[i], b)
  {
    var stop, u := ShutsDown(s, a);
    var again;
    again, t := DemandClaims(u, b);
    StepsCompose(s, stop, u, again, t);
    run := stop + again;
  }

  /** There are such states, and so reachable ones with two ladders. */
  lemma TwoLaddersAfterShutdown()
    ensures exists s :: Reachable(s) && !s.retired && 0 in s.procs && 2 in s.procs
                        && Trying(s.procs[0]) && Trying(s.procs[2])
  {
    var run, s := DemandClaims(Initial, 0);
    assert Trying(s.procs[0]);
    var again, t := ShutdownLetsASecondLadderStart(s, 0, 1, 2);
    StepsCompose(Initial, run, s, again, t);
    assert Reachable(t) && !t.retired;
  }

  lemma ShutsDown(s: State, p: nat) returns (run: seq<Action>, t: State)
    requires p !in s.procs && s.lock.None?
    ensures Steps(s, run, t) && |run| == 2 && forall i :: 0 <= i < |run| ==> StepOf(run[i], p)
    ensures t == At(s, p, StopWritten).(slot := Idle, severed := true,
                    dead := if s.slot.Ready? then s.dead + {s.slot.service} else s.dead)
  {
    var s1 := At(s, p, Stopping);
    t := Apply(s1, StopWrite(p));
    assert s1.procs[p := StopWritten] == s.procs[p := StopWritten];
    run := Before(s1, StopWrite(p), [], t);
    run := Before(s, Shutdown(p), run, t);
  }
}
