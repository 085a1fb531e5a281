/** What one demand, one ladder, one failed request, one retire and one shutdown do to a slot, case
    by case. */
module SlotSteps {
  import opened Common
  import opened SlotProtocol
  import opened SlotWakeups

  /** A slot nobody is working on: idle, holding a dead service, or claimed by a ladder that was
      dropped. */
  predicate Unowned(slot: Slot, live: set<nat>, dead: set<nat>) {
    slot.Idle? || (slot.Ready? && slot.service in dead) || (slot.Connecting? && slot.claim !in live)
  }

  predicate Latched(slot: Slot) { slot.Failed? || slot.AuthRequired? }

  /** One look, by what is in the slot: a service that is not dead is handed out, a live claim is
      waited for, an unowned slot gets the ladder of three attempts and a latched one a single
      attempt; only a claim changes the slot. */
  lemma LookDecides(slot: Slot, live: set<nat>, dead: set<nat>, unused: nat)
    ensures var (after, verdict) := LookAt(slot, live, dead, unused);
            && (verdict.Take? <==> slot.Ready? && slot.service !in dead)
            && (verdict.Take? ==> verdict.service == slot.service && after == slot)
            && (verdict.Wait? <==> slot.Connecting? && slot.claim in live)
            && (verdict.Wait? ==> verdict.claim == slot.claim && after == slot)
            && (verdict.Own? ==> verdict.claim == unused && after == Connecting(unused))
            && (verdict.Own? && verdict.attempts == 3 <==> Unowned(slot, live, dead))
            && (verdict.Own? && verdict.attempts == 1 <==> Latched(slot))
  {
  }

  /** What the look of a process that is admitted answers. */
  lemma DemandAnswers(s: State, p: nat, c: nat)
    requires Enabled(s, Look(p))
    ensures var t := Apply(s, Look(p));
            && (t.procs[p] == Answered(Live(c)) <==> s.slot == Ready(c) && c !in s.dead)
            && (t.procs[p].Answered? ==>
                  t == s.(procs := s.procs[p := t.procs[p]], lock := None) && t.procs[p].answer.Live?)
  {
  }

  /** When it parks, and on what. */
  lemma DemandParks(s: State, p: nat, f: nat)
    requires Enabled(s, Look(p))
    ensures var t := Apply(s, Look(p));
            && (t.procs[p].Parked? && t.procs[p].claim == f <==> s.slot == Connecting(f) && f in s.live)
            && (t.procs[p].Parked? ==>
                  t == s.(procs := s.procs[p := Parked(t.procs[p].claim, s.procs[p].woken)], lock := None))
  {
  }

  /** When it dials, and how many attempts it has. */
  lemma DemandDials(s: State, p: nat)
    requires Enabled(s, Look(p))
    ensures var t := Apply(s, Look(p));
            && (t.procs[p] == Dialing(|s.owner|, 3) <==> Unowned(s.slot, s.live, s.dead))
            && (t.procs[p] == Dialing(|s.owner|, 1) <==> Latched(s.slot))
            && (t.procs[p].Dialing? ==> Unowned(s.slot, s.live, s.dead) || Latched(s.slot))
  {
    LookDecides(s.slot, s.live, s.dead, |s.owner|);
  }

  /** What claiming the slot does. */
  lemma DemandOwns(s: State, p: nat)
    requires Enabled(s, Look(p)) && (Unowned(s.slot, s.live, s.dead) || Latched(s.slot))
    ensures var t := Apply(s, Look(p));
            t == s.(procs := s.procs[p := t.procs[p]], lock := None, slot := Connecting(|s.owner|),
                    owner := s.owner + [p], live := s.live + {|s.owner|})
  {
    LookDecides(s.slot, s.live, s.dead, |s.owner|);
  }

  /** A dead service is never handed out: a demand that arrives on an unlocked entry in service
      runs the full ladder. */
  lemma CrashIsRedialed(s: State, p: nat)
    requires p !in s.procs && s.lock.None? && !s.retired && s.slot.Ready? && s.slot.service in s.dead
    ensures exists run, t :: Steps(s, run, t) && |run| == 5 && t.slot == Connecting(|s.owner|)
                             && p in t.procs && t.procs[p] == Dialing(|s.owner|, 3)
  {
    var run, t := DemandClaims(s, p);
  }

  // ---- the ladder ----

  function Failures(p: nat, k: nat): seq<Action> { seq(k, _ => RungFails(p)) }

  /** Failed attempts use up a ladder one rung at a time: after k of n it has n - k left, and the
      n-th ends it as refused. */
  lemma {:induction false} LadderLength(s: State, p: nat, f: nat, n: nat, k: nat)
    requires Stands(s, p) && s.procs[p] == Dialing(f, n) && 1 <= k <= n
    ensures Steps(s, Failures(p, k), At(s, p, if k < n then Dialing(f, n - k) else Landing(f, Refused)))
    decreases k
  {
    var run, t := Failures(p, k), Apply(s, RungFails(p));
    assert run[0] == RungFails(p) && run[1..] == Failures(p, k - 1);
    if k > 1 {
      LadderLength(t, p, f, n - 1, k - 1);
      assert t.procs[p := if k < n then Dialing(f, n - k) else Landing(f, Refused)]
          == s.procs[p := if k < n then Dialing(f, n - k) else Landing(f, Refused)];
    } else {
      assert Steps(t, [], t);
    }
  }

  /** A ladder ends early with what it met: a connection, new and its own, or a conclusive failure. */
  lemma LadderLands(s: State, p: nat, a: Action)
    requires Enabled(s, a) && ((a.Connects? && a.p == p) || (a.LadderEnds? && a.p == p))
    ensures var t := Apply(s, a);
            && t.procs[p] == Landing(s.procs[p].claim, if a.Connects? then Connected(|s.dialer|) else a.outcome)
            && t.dialer == s.dialer + (if a.Connects? then [p] else []) && t.slot == s.slot
  {
  }

  /** What a landing leaves: nothing in a slot that is not its own any more, where a connection is
      closed and the caller told so; else the connection, or a latch that tells a 401 apart. */
  lemma LandingLeaves(slot: Slot, retired: bool, claim: nat, outcome: Outcome)
    ensures var gone := retired || slot != Connecting(claim);
            var (after, answer) := Settle(slot, outcome, Abandoned(slot, retired, claim));
            && (gone ==> after == slot)
            && (!gone ==> (after.Idle? <==> false) && (after.Connecting? <==> false))
            && (forall c :: !gone ==> (after == Ready(c) <==> outcome == Connected(c)))
            && (!gone ==> (after == Failed <==> outcome == Refused))
            && (!gone ==> (after == AuthRequired <==> outcome == Unauthorized))
            && (forall c :: answer == Live(c) <==> !gone && outcome == Connected(c))
            && (answer == ShutDown <==> gone && outcome.Connected?)
            && (answer == Error <==> !outcome.Connected?)
  {
  }

  /** The same for the two steps a landed process takes under the lock. */
  lemma LandedPublishes(s: State, p: nat)
    requires Enabled(s, Judge(p))
    ensures var Landed(claim, outcome) := s.procs[p];
            var gone := s.retired || s.slot != Connecting(claim);
            Enabled(Apply(s, Judge(p)), Publish(p))
            && var t := Apply(Apply(s, Judge(p)), Publish(p));
               && t.lock == None && t.live == s.live && t.owner == s.owner && t.dialer == s.dialer
               && t.slot == (if gone then s.slot
                             else match outcome
                                  case Connected(c) => Ready(c)
                                  case Refused => Failed
                                  case Unauthorized => AuthRequired)
               && t.dead == (if gone && outcome.Connected? then s.dead + {outcome.service} else s.dead)
               && t.procs[p] == Published(claim, match outcome
                                                 case Connected(c) => if gone then ShutDown else Live(c)
                                                 case _ => Error)
  {
  }

  // ---- waiters ----

  /** A wakeup reaches everybody who is registered, wherever they stand, and nobody else; whoever gave
      it is done. */
  lemma NotifyWakesAll(s: State, p: nat, q: nat)
    requires Enabled(s, Notify(p)) && Stands(s, q) && q != p
    ensures var t := Apply(s, Notify(p));
            && Stands(t, q) && t == s.(procs := t.procs) && t.procs.Keys == s.procs.Keys
            && (s.procs[q].Parked? ==> t.procs[q] == Parked(s.procs[q].claim, true))
            && (s.procs[q].Registered? ==> t.procs[q] == Registered(true))
            && (s.procs[q].Looking? ==> t.procs[q] == Looking(true))
            && (s.procs[q].Admitted? ==> t.procs[q] == Admitted(true))
            && (!s.procs[q].Parked? && !s.procs[q].Registered? && !s.procs[q].Looking? && !s.procs[q].Admitted? ==>
                  t.procs[q] == s.procs[q])
            && !Notifies(t.procs[p])
            && (s.procs[p].Disarmed? ==> t.procs[p] == Answered(s.procs[p].answer))
            && (s.procs[p].RetireWritten? ==> t.procs[p] == Retired)
            && (s.procs[p].StopWritten? ==> t.procs[p] == Stopped)
  {
  }

  /** A dropped ladder revokes its claim, closes a connection it had in hand and leaves the slot as it
      is; anybody else who is dropped leaves everything as it is. */
  lemma CancelLeaves(s: State, p: nat)
    requires Enabled(s, Cancel(p))
    ensures var t := Apply(s, Cancel(p));
            var pc := s.procs[p];
            && t.slot == s.slot && t.lock == s.lock && t.owner == s.owner && t.retired == s.retired
            && (pc.Dialing? || pc.Landing? ==> t.live == s.live - {pc.claim})
            && (!(pc.Dialing? || pc.Landing?) ==> t.live == s.live && t.procs[p] == Gone)
            && (forall c :: c in t.dead <==> c in s.dead || (pc.Landing? && pc.outcome == Connected(c)))
            && (t.procs[p] == Gone || t.procs[p] == Dropping(pc.claim))
            && (t.procs[p].Dropping? <==> (pc.Dialing? || pc.Landing?) && pc.claim in s.live)
  {
  }

  lemma Twice(s: State, p: nat, a: Pc, b: Pc)
    ensures At(At(s, p, a), p, b) == At(s, p, b)
  {
    assert s.procs[p := a][p := b] == s.procs[p := b];
  }

  /** A woken waiter registers and takes the lock again. */
  lemma WaiterReturns(s: State, p: nat, f: nat, rest: seq<Action>, t: State) returns (run: seq<Action>)
    requires Stands(s, p) && s.procs[p] == Parked(f, true) && s.lock.None?
    requires Steps(At(s, p, Looking(false)).(lock := Some(p)), rest, t)
    ensures Steps(s, run, t) && run == [Resume(p), Register(p), Lock(p)] + rest
  {
    var s1, s2 := At(s, p, Entering), At(s, p, Registered(false));
    Twice(s, p, Entering, Registered(false));
    Twice(s, p, Registered(false), Looking(false));
    run := Before(s2, Lock(p), rest, t);
    run := Before(s1, Register(p), run, t);
    run := Before(s, Resume(p), run, t);
  }

  /** It looks again, and takes what it was waiting for if that is there now. */
  lemma AWokenWaiterIsServed(s: State, p: nat, f: nat, c: nat)
    requires Stands(s, p) && s.procs[p] == Parked(f, true) && s.lock.None? && !s.retired
    requires s.slot == Ready(c) && c !in s.dead
    ensures Steps(s, [Resume(p), Register(p), Lock(p)] + [ReadRetired(p), Look(p)], At(s, p, Answered(Live(c))))
  {
    var run := LooksAndTakes(s, p, c);
    run := WaiterReturns(s, p, f, run, At(s, p, Answered(Live(c))));
  }

  lemma LooksAndTakes(s: State, p: nat, c: nat) returns (run: seq<Action>)
    requires !s.retired && s.lock.None? && s.slot == Ready(c) && c !in s.dead
    ensures Steps(At(s, p, Looking(false)).(lock := Some(p)), run, At(s, p, Answered(Live(c))))
    ensures run == [ReadRetired(p), Look(p)]
  {
    var s3, s4 := At(s, p, Looking(false)).(lock := Some(p)), At(s, p, Admitted(false)).(lock := Some(p));
    Twice(s, p, Looking(false), Admitted(false));
    Twice(s, p, Admitted(false), Answered(Live(c)));
    run := Before(s4, Look(p), [], At(s, p, Answered(Live(c))));
    run := Before(s3, ReadRetired(p), run, At(s, p, Answered(Live(c))));
    assert run == [ReadRetired(p), Look(p)];
  }

  /** Once the entry is retired the same waiter is told so. */
  lemma AWokenWaiterIsTurnedAway(s: State, p: nat, f: nat)
    requires Stands(s, p) && s.procs[p] == Parked(f, true) && s.lock.None? && s.retired
    ensures Steps(s, [Resume(p), Register(p), Lock(p)] + [ReadRetired(p)], At(s, p, Answered(ShutDown)))
  {
    var run := LooksAndLeaves(s, p);
    run := WaiterReturns(s, p, f, run, At(s, p, Answered(ShutDown)));
  }

  lemma LooksAndLeaves(s: State, p: nat) returns (run: seq<Action>)
    requires s.retired && s.lock.None?
    ensures Steps(At(s, p, Looking(false)).(lock := Some(p)), run, At(s, p, Answered(ShutDown)))
    ensures run == [ReadRetired(p)]
  {
    Twice(s, p, Looking(false), Answered(ShutDown));
    run := Before(At(s, p, Looking(false)).(lock := Some(p)), ReadRetired(p), [], At(s, p, Answered(ShutDown)));
    assert run == [ReadRetired(p)];
  }

  // ---- taking a connection out ----

  /** A failed request takes its own connection out, latched after a transport failure and idle
      after an expired credential, and no other; it closes nothing. */
  lemma GivingUpLeaves(s: State, p: nat, a: Action)
    requires Enabled(s, a) && (a == Demote(p) || a == Release(p))
    ensures var c := s.procs[p].answer.service;
            Apply(s, a) == s.(slot := if s.slot != Ready(c) then s.slot else if a.Demote? then Failed else Idle)
  {
  }

  /** A retire sets the flag and then empties the slot, and lets go of the connection without
      closing it under a request that has it. */
  lemma RetireLeaves(s: State, p: nat)
    requires Enabled(s, FlagRetired(p)) && s.lock.None?
    ensures var t := Apply(s, FlagRetired(p));
            && t.retired && t.slot == s.slot && Enabled(t, RetireWrite(p))
            && var u := Apply(t, RetireWrite(p)); u.retired && u.slot == Idle && u.dead == s.dead && u.live == s.live
  {
  }

  /** A shutdown empties the slot and closes the service in it; it sets no flag and leaves a running
      ladder's claim alone. */
  lemma StopLeaves(s: State, p: nat)
    requires Enabled(s, StopWrite(p))
    ensures var t := Apply(s, StopWrite(p));
            && t.slot == Idle && t.retired == s.retired && t.live == s.live
            && forall c :: c in t.dead <==> c in s.dead || s.slot == Ready(c)
  {
  }
}
