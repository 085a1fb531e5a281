/** Who may put a connection in a slot, what becomes of the others, and what a retire leaves. */
module SlotOwnership {
  import opened SlotProtocol
  import opened SlotInvariant

  /** One ladder at a time: whatever retires do, until a shutdown empties the slot no two
      processes are dialing or landing. */
  lemma Coalescing(s: State, p: nat, q: nat)
    requires Reachable(s) && !s.severed
    requires p in s.procs && q in s.procs && Trying(s.procs[p]) && Trying(s.procs[q])
    ensures p == q
  {
    ReachableInv(s);
    assert PcOk(s, p, s.procs[p]) && PcOk(s, q, s.procs[q]);
  }

  /** What `Coalescing` rules out is in a run exactly if a shutdown emptied the slot in it. */
  lemma {:induction false} SeveredByShutdown(s: State, run: seq<Action>, t: State)
    requires Steps(s, run, t)
    ensures t.severed <==> s.severed || exists i :: 0 <= i < |run| && run[i].StopWrite?
    decreases |run|
  {
    if run != [] {
      var rest := run[1..];
      SeveredByShutdown(Apply(s, run[0]), rest, t);
      assert forall i :: 0 <= i < |rest| ==> rest[i] == run[i + 1];
      if i :| 0 <= i < |run| && run[i].StopWrite? && i > 0 { assert rest[i - 1] == run[i]; }
    }
  }

  /** A connection enters the slot only from the ladder whose claim the slot held, only
      before a retire has emptied it, and only once. */
  lemma OnlyTheOwnerInstalls(s: State, a: Action, c: nat)
    requires Inv(s) && Enabled(s, a)
    requires Apply(s, a).slot == Ready(c) && s.slot != Ready(c)
    ensures a.Publish? && s.slot == Connecting(s.procs[a.p].claim) && s.owner[s.procs[a.p].claim] == a.p
    ensures s.procs[a.p].outcome == Connected(c) && s.dialer[c] == a.p && c !in s.installed && !s.ended
  {
    if a.Publish? { assert PcOk(s, a.p, s.procs[a.p]); }
  }

  /** Nothing leaks: a connection that was never installed and whose dialer let go of it is closed. */
  lemma NoOrphanConnection(s: State, c: nat)
    requires Reachable(s) && c < |s.dialer| && c !in s.installed
    ensures c in s.dead || (s.dialer[c] in s.procs && Carries(s.procs[s.dialer[c]])
                            && s.procs[s.dialer[c]].outcome.service == c)
  {
    ReachableInv(s);
    assert Accounted(s, c);
  }

  /** Every service `ready` returned was in the slot at some time. */
  lemma AnswersWereInstalled(s: State, p: nat)
    requires Reachable(s) && p in s.procs && s.procs[p].Answered? && s.procs[p].answer.Live?
    ensures s.procs[p].answer.service in s.installed
  {
    ReachableInv(s);
    assert PcOk(s, p, s.procs[p]);
  }

  lemma EndedStays(s: State, a: Action)
    requires Inv(s) && Enabled(s, a) && s.ended
    ensures var t := Apply(s, a); t.ended && t.owner == s.owner && t.installed == s.installed
  {
    if a.Look? || a.Publish? { assert PcOk(s, a.p, s.procs[a.p]); }
  }

  /** Once `retire` has emptied the slot it stays idle for ever: along every continuation no
      claim is made and nothing is installed, so no new ladder starts and no connection stays. */
  lemma {:induction false} RetiredForever(s: State, run: seq<Action>, t: State)
    requires Inv(s) && s.ended && Steps(s, run, t)
    ensures t.ended && t.retired && t.slot == Idle
    ensures t.owner == s.owner && t.installed == s.installed
    decreases |run|
  {
    if run != [] {
      EndedStays(s, run[0]);
      InvariantStep(s, run[0]);
      RetiredForever(Apply(s, run[0]), run[1..], t);
    }
  }

  /** A finished `retire` has emptied the slot, in every reachable state. */
  lemma FinishedRetireEnded(s: State, p: nat)
    requires Reachable(s) && p in s.procs && s.procs[p].Retired?
    ensures s.ended && s.retired && s.slot == Idle
  {
    ReachableInv(s);
    assert PcOk(s, p, s.procs[p]);
  }
}
