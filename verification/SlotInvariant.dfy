/** What every step of the slot protocol keeps. */
module SlotInvariant {
  import opened Common
  import opened SlotProtocol

  ghost predicate Made(s: State, p: nat, f: nat) {
    f < |s.owner| && s.owner[f] == p
  }

  /** Until something empties the slot, a ladder that is still trying is the one in the slot, and
      until a shutdown does, its claim is the last one made. */
  ghost predicate Holds(s: State, p: nat, f: nat) {
    && Made(s, p, f) && f in s.live
    && (s.slot == Connecting(f) || s.severed || s.ended)
    && (f == |s.owner| - 1 || s.severed)
  }

  ghost predicate OutcomeOk(s: State, p: nat, outcome: Outcome) {
    outcome.Connected? ==>
      outcome.service < |s.dialer| && s.dialer[outcome.service] == p && outcome.service !in s.installed
  }

  ghost predicate AnswerOk(s: State, answer: Answer) {
    answer.Live? ==> answer.service in s.installed
  }

  /** The process that made claim `f` has yet to wake that claim's waiters. */
  ghost predicate WakeupPending(s: State, f: nat) {
    && f < |s.owner| && s.owner[f] in s.procs
    && OwesWakeup(s.procs[s.owner[f]]) && s.procs[s.owner[f]].claim == f
  }

  ghost predicate PcOk(s: State, p: nat, pc: Pc) {
    match pc
    case Looking(_) => s.lock == Some(p)
    case Admitted(_) => s.lock == Some(p) && !s.ended
    case Parked(f, woken) => !woken ==> WakeupPending(s, f)
    case Dialing(f, _) => Holds(s, p, f)
    case Landing(f, outcome) => Holds(s, p, f) && OutcomeOk(s, p, outcome)
    case Landed(f, outcome) => s.lock == Some(p) && Holds(s, p, f) && OutcomeOk(s, p, outcome)
    case Judged(f, outcome, abandoned) =>
      && s.lock == Some(p) && Holds(s, p, f) && OutcomeOk(s, p, outcome)
      && (!abandoned ==> s.slot == Connecting(f) && !s.ended)
    case Published(f, answer) => Made(s, p, f) && f in s.live && AnswerOk(s, answer)
    case Disarmed(f, answer) => Made(s, p, f) && AnswerOk(s, answer)
    case Dropping(f) => Made(s, p, f)
    case Answered(answer) => AnswerOk(s, answer)
    case RetireFlagged => s.retired
    case RetireWritten => s.ended
    case Retired => s.ended
    case _ => true
  }

  ghost predicate RunsLadder(s: State, f: nat) {
    && f < |s.owner| && s.owner[f] in s.procs
    && Running(s.procs[s.owner[f]]) && s.procs[s.owner[f]].claim == f
  }

  /** The connection was installed, or is closed, or is in its dialer's hands. */
  ghost predicate Accounted(s: State, c: nat)
    requires c < |s.dialer|
  {
    || c in s.installed || c in s.dead
    || (s.dialer[c] in s.procs && Carries(s.procs[s.dialer[c]]) && s.procs[s.dialer[c]].outcome.service == c)
  }

  ghost predicate FieldsOk(s: State) {
    && (s.lock.Some? ==> s.lock.value in s.procs && HoldsLock(s.procs[s.lock.value]))
    && (s.ended ==> s.retired && s.slot.Idle?)
    && (s.slot.Connecting? ==> s.slot.claim < |s.owner|)
    && (s.slot.Ready? ==> s.slot.service in s.installed)
    && (forall f :: f in s.live ==> RunsLadder(s, f))
    && (forall c :: c in s.installed ==> c < |s.dialer|)
    && (forall c :: 0 <= c < |s.dialer| ==> Accounted(s, c))
  }

  ghost predicate ProcsOk(s: State) {
    forall p :: p in s.procs ==> PcOk(s, p, s.procs[p])
  }

  ghost predicate Inv(s: State) { FieldsOk(s) && ProcsOk(s) }

  /** What a step of process `p` may do to the state the other processes rely on. */
  ghost predicate Frame(s: State, t: State, p: nat) {
    && p in t.procs && t.procs == s.procs[p := t.procs[p]]
    && s.owner <= t.owner && s.dialer <= t.dialer
    && (s.retired ==> t.retired) && (s.severed ==> t.severed) && (s.ended ==> t.ended)
    && (forall f :: f in s.live && f !in t.live ==> Made(s, p, f))
    && s.installed <= t.installed
    && (forall c :: c in t.installed && c !in s.installed ==> c < |s.dialer| && s.dialer[c] == p)
    && (s.lock.Some? && s.lock != Some(p) ==> t.lock == s.lock && t.slot == s.slot && t.ended == s.ended)
    && (s.slot.Connecting? && s.slot.claim in s.live && !Made(s, p, s.slot.claim) ==>
          t.slot == s.slot || t.severed || t.ended)
    && (t.owner == s.owner || s.severed || (!s.ended && !(s.slot.Connecting? && s.slot.claim in s.live)))
    && (p in s.procs && OwesWakeup(s.procs[p]) ==>
          OwesWakeup(t.procs[p]) && t.procs[p].claim == s.procs[p].claim)
  }

  lemma OthersKeep(s: State, t: State, p: nat, q: nat)
    requires Inv(s) && Frame(s, t, p) && q in s.procs && q != p
    ensures PcOk(t, q, s.procs[q])
  {
    assert PcOk(s, q, s.procs[q]);
    assert s.procs[q].Parked? && !s.procs[q].woken ==>
           PcOk(s, s.owner[s.procs[q].claim], s.procs[s.owner[s.procs[q].claim]]);
  }

  /** The part of a step that is about process `p` alone. */
  ghost predicate OwnPart(s: State, t: State, p: nat)
    requires p in t.procs
  {
    var pc := t.procs[p];
    && PcOk(t, p, pc)
    && (t.lock == Some(p) <==> HoldsLock(pc)) && (t.lock.Some? && t.lock != Some(p) ==> t.lock == s.lock)
    && (t.ended ==> t.retired && t.slot.Idle?)
    && (t.slot.Connecting? ==> t.slot.claim < |t.owner|)
    && (t.slot.Ready? ==> t.slot.service in t.installed)
    && (forall f :: f in t.live ==> (f in s.live && !Made(s, p, f)) || (Made(t, p, f) && Running(pc) && pc.claim == f))
    && s.dead <= t.dead
    && (forall c :: |s.dialer| <= c < |t.dialer| ==> Accounted(t, c))
    && (p in s.procs && Carries(s.procs[p]) && s.procs[p].outcome.service < |t.dialer| ==>
          Accounted(t, s.procs[p].outcome.service))
  }

  lemma StepKeeps(s: State, t: State, p: nat)
    requires Inv(s) && Frame(s, t, p)
    requires OwnPart(s, t, p)
    ensures Inv(t)
  {
    forall q | q in t.procs ensures PcOk(t, q, t.procs[q]) {
      if q != p { OthersKeep(s, t, p, q); }
    }
    forall f | f in t.live ensures RunsLadder(t, f) {
      if f in s.live { assert RunsLadder(s, f); }
    }
    forall c | 0 <= c < |t.dialer| ensures Accounted(t, c) {
      if c < |s.dialer| { assert Accounted(s, c); }
    }
  }

  predicate Arrival(a: Action) { a.Call? || a.Retire? || a.Shutdown? }

  predicate Waiting(a: Action) { a.Register? || a.ReadRetired? || a.Resume? }

  predicate Locking(a: Action) { a.Lock? }

  predicate Climbing(a: Action) { a.RungFails? || a.LadderEnds? || a.Connects? }

  predicate Settling(a: Action) { a.Judge? || a.Disarm? || a.FlagRetired? }

  predicate Emptying(a: Action) { a.RetireWrite? || a.StopWrite? }

  predicate GivingUp(a: Action) { a.Demote? || a.Release? }

  lemma ArrivalKeeps(s: State, a: Action)
    requires Inv(s) && Enabled(s, a) && Arrival(a)
    ensures Inv(Apply(s, a))
  {
    StepKeeps(s, Apply(s, a), a.p);
  }

  lemma WaitingKeeps(s: State, a: Action)
    requires Inv(s) && Enabled(s, a) && Waiting(a)
    ensures Inv(Apply(s, a))
  {
    assert PcOk(s, a.p, s.procs[a.p]);
    StepKeeps(s, Apply(s, a), a.p);
  }

  lemma LockingKeeps(s: State, a: Action)
    requires Inv(s) && Enabled(s, a) && Locking(a)
    ensures Inv(Apply(s, a))
  {
    assert PcOk(s, a.p, s.procs[a.p]);
    StepKeeps(s, Apply(s, a), a.p);
  }

  lemma ClimbingKeeps(s: State, a: Action)
    requires Inv(s) && Enabled(s, a) && Climbing(a)
    ensures Inv(Apply(s, a))
  {
    assert PcOk(s, a.p, s.procs[a.p]);
    StepKeeps(s, Apply(s, a), a.p);
  }

  lemma SettlingKeeps(s: State, a: Action)
    requires Inv(s) && Enabled(s, a) && Settling(a)
    ensures Inv(Apply(s, a))
  {
    assert PcOk(s, a.p, s.procs[a.p]);
    StepKeeps(s, Apply(s, a), a.p);
  }

  lemma EmptyingKeeps(s: State, a: Action)
    requires Inv(s) && Enabled(s, a) && Emptying(a)
    ensures Inv(Apply(s, a))
  {
    assert PcOk(s, a.p, s.procs[a.p]);
    StepKeeps(s, Apply(s, a), a.p);
  }

  lemma GivingUpKeeps(s: State, a: Action)
    requires Inv(s) && Enabled(s, a) && GivingUp(a)
    ensures Inv(Apply(s, a))
  {
    assert PcOk(s, a.p, s.procs[a.p]);
    StepKeeps(s, Apply(s, a), a.p);
  }

  lemma LookOwn(s: State, p: nat)
    requires Inv(s) && Stands(s, p) && s.procs[p].Admitted? && PcOk(s, p, s.procs[p])
    ensures OwnPart(s, AfterLook(s, p), p)
  {
    var t := AfterLook(s, p);
    var (slot, verdict) := LookAt(s.slot, s.live, s.dead, |s.owner|);
    if verdict.Wait? {
      assert RunsLadder(s, verdict.claim);
      assert WakeupPending(t, verdict.claim);
    }
  }

  lemma LookFrame(s: State, p: nat)
    requires Inv(s) && Stands(s, p) && s.procs[p].Admitted? && PcOk(s, p, s.procs[p])
    ensures Frame(s, AfterLook(s, p), p)
  {
  }

  lemma LookKeeps(s: State, p: nat)
    requires Inv(s) && Stands(s, p) && s.procs[p].Admitted?
    ensures Inv(AfterLook(s, p))
  {
    assert PcOk(s, p, s.procs[p]);
    LookFrame(s, p);
    LookOwn(s, p);
    StepKeeps(s, AfterLook(s, p), p);
  }

  lemma PublishFrame(s: State, p: nat)
    requires Inv(s) && Stands(s, p) && s.procs[p].Judged? && PcOk(s, p, s.procs[p])
    ensures Frame(s, AfterPublish(s, p), p)
  {
  }

  lemma PublishOwn(s: State, p: nat)
    requires Inv(s) && Stands(s, p) && s.procs[p].Judged? && PcOk(s, p, s.procs[p])
    ensures p in AfterPublish(s, p).procs && OwnPart(s, AfterPublish(s, p), p)
  {
  }

  lemma PublishKeeps(s: State, p: nat)
    requires Inv(s) && Stands(s, p) && s.procs[p].Judged?
    ensures Inv(AfterPublish(s, p))
  {
    assert PcOk(s, p, s.procs[p]);
    PublishFrame(s, p);
    PublishOwn(s, p);
    StepKeeps(s, AfterPublish(s, p), p);
  }

  lemma CancelFrame(s: State, p: nat)
    requires Inv(s) && Stands(s, p) && Droppable(s.procs[p]) && PcOk(s, p, s.procs[p])
    ensures Frame(s, AfterCancel(s, p), p)
  {
  }

  lemma CancelOwn(s: State, p: nat)
    requires Inv(s) && Stands(s, p) && Droppable(s.procs[p]) && PcOk(s, p, s.procs[p])
    ensures p in AfterCancel(s, p).procs && OwnPart(s, AfterCancel(s, p), p)
  {
  }

  lemma CancelKeeps(s: State, p: nat)
    requires Inv(s) && Stands(s, p) && Droppable(s.procs[p])
    ensures Inv(AfterCancel(s, p))
  {
    assert PcOk(s, p, s.procs[p]);
    CancelFrame(s, p);
    CancelOwn(s, p);
    StepKeeps(s, AfterCancel(s, p), p);
  }

  lemma NotifyKeepsAt(s: State, p: nat, q: nat)
    requires Stands(s, p) && Notifies(s.procs[p])
    requires q in s.procs && PcOk(s, q, s.procs[q])
    ensures PcOk(AfterNotify(s, p), q, AfterNotify(s, p).procs[q])
  {
  }

  lemma NotifyKeeps(s: State, p: nat)
    requires Inv(s) && Stands(s, p) && Notifies(s.procs[p])
    ensures Inv(AfterNotify(s, p))
  {
    var t := AfterNotify(s, p);
    forall q | q in t.procs ensures PcOk(t, q, t.procs[q]) {
      assert PcOk(s, q, s.procs[q]);
      NotifyKeepsAt(s, p, q);
    }
    forall f | f in t.live ensures RunsLadder(t, f) {
      assert RunsLadder(s, f);
    }
    forall c | 0 <= c < |t.dialer| ensures Accounted(t, c) {
      assert Accounted(s, c);
    }
  }

  lemma DieKeeps(s: State, service: nat)
    requires Inv(s) && Enabled(s, Die(service))
    ensures Inv(Apply(s, Die(service)))
  {
    var t := Apply(s, Die(service));
    forall q | q in t.procs ensures PcOk(t, q, t.procs[q]) {
      assert PcOk(s, q, s.procs[q]);
    }
    forall c | 0 <= c < |t.dialer| ensures Accounted(t, c) {
      assert Accounted(s, c);
    }
  }

  /** Every step of every process keeps the invariant. */
  lemma InvariantStep(s: State, a: Action)
    requires Inv(s) && Enabled(s, a)
    ensures Inv(Apply(s, a))
  {
    if Arrival(a) { ArrivalKeeps(s, a); }
    else if Waiting(a) { WaitingKeeps(s, a); }
    else if Locking(a) { LockingKeeps(s, a); }
    else if Climbing(a) { ClimbingKeeps(s, a); }
    else if Settling(a) { SettlingKeeps(s, a); }
    else if Emptying(a) { EmptyingKeeps(s, a); }
    else if GivingUp(a) { GivingUpKeeps(s, a); }
    else if a.Look? { LookKeeps(s, a.p); }
    else if a.Publish? { PublishKeeps(s, a.p); }
    else if a.Cancel? { CancelKeeps(s, a.p); }
    else if a.Notify? { NotifyKeeps(s, a.p); }
    else { DieKeeps(s, a.service); }
  }

  lemma {:induction false} RunKeeps(s: State, run: seq<Action>, t: State)
    requires Inv(s) && Steps(s, run, t)
    ensures Inv(t)
    decreases |run|
  {
    if run != [] {
      InvariantStep(s, run[0]);
      RunKeeps(Apply(s, run[0]), run[1..], t);
    }
  }

  lemma ReachableInv(s: State)
    requires Reachable(s)
    ensures Inv(s)
  {
    var run :| Steps(Initial, run, s);
    RunKeeps(Initial, run, s);
  }
}
