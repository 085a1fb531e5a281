/** The connection slot of one upstream, driven by any number of concurrent calls of
    `ready`, `demote`, `release`, `retire` and `shutdown`, each of which may be dropped at
    any await. The slot lock, the atomic flags and the wakeup are separate steps. */
module SlotProtocol {
  import opened Common

  /** Connect attempts of a full ladder. */
  const ATTEMPTS: nat := 3

  /** `Connecting` names the claim (the liveness flag) of the ladder that owns the slot. */
  datatype Slot = Idle | Connecting(claim: nat) | Ready(service: nat) | Failed | AuthRequired

  /** What a ladder came back with. */
  datatype Outcome = Connected(service: nat) | Refused | Unauthorized

  /** What a call of `ready` returns. */
  datatype Answer = Live(service: nat) | ShutDown | Error

  // ---- the critical sections, as functions of what is read under the lock ----

  /** What one look at the slot decided. */
  datatype Verdict = Take(service: nat) | Wait(claim: nat) | Own(claim: nat, attempts: nat)

  /** A live service is taken, a claim whose flag is still set is waited for, anything else
      is claimed: with the full ladder, or with one attempt when the slot is latched. */
  function LookAt(slot: Slot, live: set<nat>, dead: set<nat>, unused: nat): (Slot, Verdict) {
    match slot
    case Ready(service) =>
      if service !in dead then (slot, Take(service)) else (Connecting(unused), Own(unused, ATTEMPTS))
    case Connecting(claim) =>
      if claim in live then (slot, Wait(claim)) else (Connecting(unused), Own(unused, ATTEMPTS))
    case Idle => (Connecting(unused), Own(unused, ATTEMPTS))
    case Failed => (Connecting(unused), Own(unused, 1))
    case AuthRequired => (Connecting(unused), Own(unused, 1))
  }

  predicate Abandoned(slot: Slot, retired: bool, claim: nat) {
    retired || slot != Connecting(claim)
  }

  /** What a ladder that landed leaves in the slot and answers. */
  function Settle(slot: Slot, outcome: Outcome, abandoned: bool): (Slot, Answer) {
    match outcome
    case Connected(service) => if abandoned then (slot, ShutDown) else (Ready(service), Live(service))
    case Refused => (if abandoned then slot else Failed, Error)
    case Unauthorized => (if abandoned then slot else AuthRequired, Error)
  }

  /** `demote` and `release`: only the connection that failed is taken out. */
  function TakeOut(slot: Slot, stale: nat, left: Slot): Slot {
    if slot == Ready(stale) then left else slot
  }

  // ---- the processes ----

  /** Where one process stands. The first group is a call of `ready`. */
  datatype Pc =
    | Entering
    | Registered(woken: bool)                                 // about to take the lock
    | Looking(woken: bool)                                    // holds the lock
    | Admitted(woken: bool)                                   // holds the lock, saw the entry not retired
    | Parked(claim: nat, woken: bool)
    | Dialing(claim: nat, left: nat)
    | Landing(claim: nat, outcome: Outcome)                   // about to take the lock
    | Landed(claim: nat, outcome: Outcome)                    // holds the lock
    | Judged(claim: nat, outcome: Outcome, abandoned: bool)   // holds the lock
    | Published(claim: nat, answer: Answer)                   // slot written, lock released
    | Disarmed(claim: nat, answer: Answer)                    // flag cleared, wakeup owed
    | Dropping(claim: nat)                                    // dropped mid-ladder, flag revoked, wakeup owed
    | Answered(answer: Answer)
    | Gone
    | Retiring
    | RetireFlagged                                           // flag stored, about to take the lock
    | RetireWritten                                           // slot idle, wakeup owed
    | Retired
    | Stopping
    | StopWritten                                             // slot idle, wakeup owed
    | Stopped

  datatype State = State(
    slot: Slot,
    retired: bool,
    lock: Option<nat>,
    live: set<nat>,             // the claims whose flag is set
    dead: set<nat>,             // the services that were cancelled, dropped or lost their transport
    procs: map<nat, Pc>,
    // history, read by no step
    owner: seq<nat>,            // which process made each claim, in order
    dialer: seq<nat>,           // which process opened each connection, in order
    installed: set<nat>,        // the services that were ever put in the slot
    severed: bool,              // a shutdown has emptied the slot
    ended: bool                 // a retire has emptied the slot
  )

  const Initial := State(Idle, false, None, {}, {}, map[], [], [], {}, false, false)

  datatype Action =
    | Call(p: nat)              // a demand arrives
    | Register(p: nat)
    | Lock(p: nat)
    | ReadRetired(p: nat)
    | Look(p: nat)
    | Resume(p: nat)            // a woken waiter looks again
    | RungFails(p: nat)         // one attempt failed in a way worth retrying
    | LadderEnds(p: nat, outcome: Outcome)  // a conclusive failure: a 401 or a headers command
    | Connects(p: nat)
    | Judge(p: nat)
    | Publish(p: nat)
    | Disarm(p: nat)
    | Notify(p: nat)
    | Cancel(p: nat)            // the future is dropped at an await
    | Retire(p: nat)
    | FlagRetired(p: nat)
    | RetireWrite(p: nat)
    | Shutdown(p: nat)
    | StopWrite(p: nat)
    | Demote(p: nat)            // a request on the returned service failed at the transport
    | Release(p: nat)           // ... or its credential expired
    | Die(service: nat)         // a transport closes on its own

  predicate Stands(s: State, p: nat) { p in s.procs }

  /** Stands at an await, where its future can be dropped. */
  predicate Droppable(pc: Pc) {
    pc.Registered? || pc.Parked? || pc.Dialing? || pc.Landing? || pc.RetireFlagged? || pc.Stopping?
  }

  predicate HoldsLock(pc: Pc) {
    pc.Looking? || pc.Admitted? || pc.Landed? || pc.Judged?
  }

  /** Runs the ladder and has not published its outcome. */
  predicate Trying(pc: Pc) {
    pc.Dialing? || pc.Landing? || pc.Landed? || pc.Judged?
  }

  /** The ladder whose flag is set. */
  predicate Running(pc: Pc) { Trying(pc) || pc.Published? }

  /** Will still wake the waiters of its claim. */
  predicate OwesWakeup(pc: Pc) { Running(pc) || pc.Disarmed? || pc.Dropping? }

  /** Has a connection in hand that is not installed. */
  predicate Carries(pc: Pc) {
    (pc.Landing? || pc.Landed? || pc.Judged?) && pc.outcome.Connected?
  }

  function Woken(pc: Pc): Pc {
    match pc
    case Registered(_) => Registered(true)
    case Looking(_) => Looking(true)
    case Admitted(_) => Admitted(true)
    case Parked(claim, _) => Parked(claim, true)
    case _ => pc
  }

  /** `notify_waiters`: every registered waiter is woken. */
  function WakeAll(procs: map<nat, Pc>): map<nat, Pc> {
    map p | p in procs :: Woken(procs[p])
  }

  predicate Notifies(pc: Pc) {
    pc.Disarmed? || pc.Dropping? || pc.RetireWritten? || pc.StopWritten?
  }

  function Done(pc: Pc): Pc {
    match pc
    case Disarmed(_, answer) => Answered(answer)
    case Dropping(_) => Gone
    case RetireWritten => Retired
    case StopWritten => Stopped
    case _ => pc
  }

  predicate Enabled(s: State, a: Action) {
    match a
    case Call(p) => p !in s.procs
    case Retire(p) => p !in s.procs
    case Shutdown(p) => p !in s.procs
    case Die(service) => service < |s.dialer|
    case Register(p) => Stands(s, p) && s.procs[p].Entering?
    case Lock(p) => Stands(s, p) && s.lock.None? && (s.procs[p].Registered? || s.procs[p].Landing?)
    case ReadRetired(p) => Stands(s, p) && s.procs[p].Looking?
    case Look(p) => Stands(s, p) && s.procs[p].Admitted?
    case Resume(p) => Stands(s, p) && s.procs[p].Parked? && s.procs[p].woken
    case RungFails(p) => Stands(s, p) && s.procs[p].Dialing?
    case LadderEnds(p, outcome) => Stands(s, p) && s.procs[p].Dialing? && !outcome.Connected?
    case Connects(p) => Stands(s, p) && s.procs[p].Dialing?
    case Judge(p) => Stands(s, p) && s.procs[p].Landed?
    case Publish(p) => Stands(s, p) && s.procs[p].Judged?
    case Disarm(p) => Stands(s, p) && s.procs[p].Published?
    case Notify(p) => Stands(s, p) && Notifies(s.procs[p])
    case Cancel(p) =>
      Stands(s, p) && Droppable(s.procs[p])
    case FlagRetired(p) => Stands(s, p) && s.procs[p].Retiring?
    case RetireWrite(p) => Stands(s, p) && s.procs[p].RetireFlagged? && s.lock.None?
    case StopWrite(p) => Stands(s, p) && s.procs[p].Stopping? && s.lock.None?
    case Demote(p) => Stands(s, p) && s.procs[p].Answered? && s.procs[p].answer.Live? && s.lock.None?
    case Release(p) => Stands(s, p) && s.procs[p].Answered? && s.procs[p].answer.Live? && s.lock.None?
  }

  function At(s: State, p: nat, pc: Pc): State { s.(procs := s.procs[p := pc]) }

  function Apply(s: State, a: Action): State
    requires Enabled(s, a)
  {
    match a
    case Call(p) => At(s, p, Entering)
    case Retire(p) => At(s, p, Retiring)
    case Shutdown(p) => At(s, p, Stopping)
    case Die(service) => s.(dead := s.dead + {service})
    case Register(p) => At(s, p, Registered(false))
    case Lock(p) =>
      At(s, p, match s.procs[p]
               case Registered(woken) => Looking(woken)
               case Landing(claim, outcome) => Landed(claim, outcome)
               case pc => pc).(lock := Some(p))
    case ReadRetired(p) =>
      if s.retired then At(s, p, Answered(ShutDown)).(lock := None) else At(s, p, Admitted(s.procs[p].woken))
    case Look(p) => AfterLook(s, p)
    case Resume(p) => At(s, p, Entering)
    case RungFails(p) =>
      var Dialing(claim, left) := s.procs[p];
      At(s, p, if left > 1 then Dialing(claim, left - 1) else Landing(claim, Refused))
    case LadderEnds(p, outcome) => At(s, p, Landing(s.procs[p].claim, outcome))
    case Connects(p) =>
      At(s, p, Landing(s.procs[p].claim, Connected(|s.dialer|))).(dialer := s.dialer + [p])
    case Judge(p) =>
      var Landed(claim, outcome) := s.procs[p];
      At(s, p, Judged(claim, outcome, Abandoned(s.slot, s.retired, claim)))
    case Publish(p) => AfterPublish(s, p)
    case Disarm(p) =>
      var Published(claim, answer) := s.procs[p];
      At(s, p, Disarmed(claim, answer)).(live := s.live - {claim})
    case Notify(p) => AfterNotify(s, p)
    case Cancel(p) => AfterCancel(s, p)
    case FlagRetired(p) => At(s, p, RetireFlagged).(retired := true)
    case RetireWrite(p) => At(s, p, RetireWritten).(slot := Idle, ended := true)
    case StopWrite(p) =>
      At(s, p, StopWritten).(slot := Idle, severed := true,
                             dead := if s.slot.Ready? then s.dead + {s.slot.service} else s.dead)
    case Demote(p) => s.(slot := TakeOut(s.slot, s.procs[p].answer.service, Failed))
    case Release(p) => s.(slot := TakeOut(s.slot, s.procs[p].answer.service, Idle))
  }

  function AfterNotify(s: State, p: nat): State
    requires Stands(s, p)
  {
    s.(procs := WakeAll(s.procs[p := Done(s.procs[p])]))
  }

  function AfterLook(s: State, p: nat): State
    requires Stands(s, p) && s.procs[p].Admitted?
  {
    var (slot, verdict) := LookAt(s.slot, s.live, s.dead, |s.owner|);
    var unlocked := s.(slot := slot, lock := None);
    match verdict
    case Take(service) => At(unlocked, p, Answered(Live(service)))
    case Wait(claim) => At(unlocked, p, Parked(claim, s.procs[p].woken))
    case Own(claim, attempts) =>
      At(unlocked, p, Dialing(claim, attempts)).(owner := s.owner + [p], live := s.live + {claim})
  }

  function AfterPublish(s: State, p: nat): State
    requires Stands(s, p) && s.procs[p].Judged?
  {
    var Judged(claim, outcome, abandoned) := s.procs[p];
    var (slot, answer) := Settle(s.slot, outcome, abandoned);
    var unlocked := At(s, p, Published(claim, answer)).(slot := slot, lock := None);
    if !outcome.Connected? then unlocked
    else if abandoned then unlocked.(dead := s.dead + {outcome.service})
    else unlocked.(installed := s.installed + {outcome.service})
  }

  /** The guard revokes the claim of a ladder dropped before it settled; a connection it
      had in hand is dropped with it. */
  function AfterCancel(s: State, p: nat): State
    requires Stands(s, p) && Droppable(s.procs[p])
  {
    match s.procs[p]
    case Dialing(claim, _) =>
      At(s, p, if claim in s.live then Dropping(claim) else Gone).(live := s.live - {claim})
    case Landing(claim, outcome) =>
      At(s, p, if claim in s.live then Dropping(claim) else Gone)
      .(live := s.live - {claim}, dead := if outcome.Connected? then s.dead + {outcome.service} else s.dead)
    case _ => At(s, p, Gone)
  }

  // ---- runs ----

  ghost predicate Steps(s: State, run: seq<Action>, t: State)
    decreases |run|
  {
    if run == [] then s == t
    else Enabled(s, run[0]) && Steps(Apply(s, run[0]), run[1..], t)
  }

  ghost predicate Reachable(s: State) { exists run :: Steps(Initial, run, s) }
}
