/** The offloaded traffic writer: a bounded queue, one thread that drains it, and a flush that
    waits its turn in it. */
module CaptureQueue {
  /** How many messages the queue holds. */
  const QUEUE_DEPTH: nat := 1024

  type Record = string

  datatype Message = Record(record: Record) | Flush(id: nat)

  /** What the writer thread is doing: waiting for a message, writing what it held before it
      answers a flush, writing what it held because every sender is gone, or gone itself. */
  datatype Phase = Receiving | Draining(id: nat) | Ending | Done

  datatype State = State(
    queue: seq<Message>,
    granted: set<nat>,         // the waiting flushes a free place is set aside for
    closed: bool,              // every sender is gone
    phase: Phase,
    held: seq<Record>,
    written: seq<Record>,      // handed to the sink, in order
    uncounted: nat,            // calls of append that were refused and have not counted it yet
    dropped: nat,
    unreported: nat,           // ... that have counted it and have not looked at the flag yet
    reported: bool,
    acked: set<nat>,           // flushes that have returned
    accepted: seq<Record>,     // history: the records a caller was told are accepted
    appended: nat,             // history: the calls of append
    warnings: nat,             // history: how often a drop was reported
    called: map<nat, nat>,     // history: per flush, how many records had been accepted when it was called
    sent: set<nat>)            // history: the flushes that got into the queue

  datatype Action =
    | Append(record: Record)
    | CountDrop | ReportDrop   // the rest of an append that was refused
    | CallFlush(id: nat) | Grant(id: nat) | SendFlush(id: nat)
    | Receive | DrainOne | Answer
    | Close | Finish

  /** The channel has a place for a record: a place a waiting flush was promised is not free. */
  predicate HasRoom(s: State) { |s.queue| + |s.granted| < QUEUE_DEPTH }

  /** Has been called and is waiting for its place in the queue. */
  predicate WaitsForPlace(s: State, id: nat) { id in s.called && id !in s.sent }

  predicate Enabled(s: State, a: Action) {
    match a
    case Append(_) => !s.closed
    case CountDrop => s.uncounted > 0
    case ReportDrop => s.unreported > 0
    case CallFlush(id) => !s.closed && id !in s.called
    case Grant(id) => !s.closed && WaitsForPlace(s, id) && id !in s.granted && HasRoom(s)
    case SendFlush(id) => !s.closed && id in s.granted
    case Receive => s.phase.Receiving? && s.queue != []
    case DrainOne => (s.phase.Draining? || s.phase.Ending?) && s.held != []
    case Answer => s.phase.Draining? && s.held == []
    case Close => !s.closed
    case Finish => (s.phase.Receiving? && s.closed && s.queue == []) || (s.phase.Ending? && s.held == [])
  }

  /** `holding` is the mode in which records wait for a flush. */
  function Apply(holding: bool, s: State, a: Action): State
    requires Enabled(s, a)
  {
    match a
    case Append(r) =>
      if HasRoom(s) then
        s.(queue := s.queue + [Record(r)], accepted := s.accepted + [r], appended := s.appended + 1)
      else
        s.(uncounted := s.uncounted + 1, appended := s.appended + 1)
    case CountDrop => s.(uncounted := s.uncounted - 1, dropped := s.dropped + 1, unreported := s.unreported + 1)
    case ReportDrop =>
      s.(unreported := s.unreported - 1, reported := true, warnings := s.warnings + if s.reported then 0 else 1)
    case CallFlush(id) => s.(called := s.called[id := |s.accepted|])
    case Grant(id) => s.(granted := s.granted + {id})
    case SendFlush(id) => s.(queue := s.queue + [Flush(id)], granted := s.granted - {id}, sent := s.sent + {id})
    case Receive =>
      var rest := s.(queue := s.queue[1..]);
      (match s.queue[0]
       case Record(r) => if holding then rest.(held := s.held + [r]) else rest.(written := s.written + [r])
       case Flush(id) => rest.(phase := Draining(id)))
    case DrainOne => s.(held := s.held[1..], written := s.written + [s.held[0]])
    case Answer => s.(phase := Receiving, acked := s.acked + {s.phase.id})
    case Close => s.(closed := true)
    case Finish => s.(phase := if s.phase.Receiving? then Ending else Done)
  }

  function Start(): State {
    State([], {}, false, Receiving, [], [], 0, 0, 0, false, {}, [], 0, 0, map[], {})
  }

  function RecordOf(m: Message): seq<Record> { if m.Record? then [m.record] else [] }

  /** The records in a queue, in order. */
  function Records(queue: seq<Message>): seq<Record> {
    if queue == [] then [] else RecordOf(queue[0]) + Records(queue[1..])
  }

  lemma {:induction false} RecordsAppend(queue: seq<Message>, m: Message)
    ensures Records(queue + [m]) == Records(queue) + RecordOf(m)
    decreases |queue|
  {
    if queue == [] {
      assert queue + [m] == [m] && [m][1..] == [];
    } else {
      var rest := queue[1..];
      RecordsAppend(rest, m);
      assert (queue + [m])[0] == queue[0] && (queue + [m])[1..] == rest + [m];
      Regroup(RecordOf(queue[0]), Records(rest), RecordOf(m), []);
    }
  }

  // ---- conservation ----

  predicate Ordered(s: State) { s.accepted == s.written + (s.held + Records(s.queue)) }

  predicate Counted(holding: bool, s: State) {
    && (!holding ==> s.held == [])
    && s.appended == |s.accepted| + s.dropped + s.uncounted
    && s.warnings == (if s.reported then 1 else 0)
    && (s.dropped > 0 <==> s.reported || s.unreported > 0)
    && (s.phase.Ending? || s.phase.Done? ==> s.closed && s.queue == [])
    && (s.phase.Done? ==> s.held == [])
  }

  /** Places are promised to waiting flushes, and never more than there are. */
  predicate Placed(s: State) {
    |s.queue| + |s.granted| <= QUEUE_DEPTH && forall id :: id in s.granted ==> WaitsForPlace(s, id)
  }

  predicate Conserved(holding: bool, s: State) { Ordered(s) && Counted(holding, s) && Placed(s) }

  lemma Regroup(a: seq<Record>, b: seq<Record>, c: seq<Record>, d: seq<Record>)
    ensures a + (b + c) + d == a + (b + (c + d))
    ensures (a + b) + (c + d) == a + ((b + c) + d)
    ensures a + (b + c) == (a + b) + c
  {
  }

  lemma Queueing(s: State, m: Message)
    ensures s.written + (s.held + Records(s.queue + [m])) ==
            s.written + (s.held + Records(s.queue)) + RecordOf(m)
  {
    RecordsAppend(s.queue, m);
    Regroup(s.written, s.held, Records(s.queue), RecordOf(m));
  }

  lemma Taking(holding: bool, s: State)
    requires Enabled(s, Receive) && (holding || s.held == [])
    ensures var t := Apply(holding, s, Receive);
            t.written + (t.held + Records(t.queue)) == s.written + (s.held + Records(s.queue))
  {
    var rest := Records(s.queue[1..]);
    if s.queue[0].Record? {
      var r := s.queue[0].record;
      assert Records(s.queue) == [r] + rest;
      if holding {
        Regroup(s.held, [r], rest, []);
      } else {
        Regroup(s.written, [r], rest, []);
        assert s.held + ([r] + rest) == [r] + rest && s.held + rest == rest;
      }
    } else {
      assert Records(s.queue) == [] + rest == rest;
    }
  }

  lemma Writing(s: State)
    requires s.held != []
    ensures s.written + [s.held[0]] + (s.held[1..] + Records(s.queue)) == s.written + (s.held + Records(s.queue))
  {
    var r, rest := s.held[0], s.held[1..];
    assert s.held == [r] + rest;
    Regroup([r], rest, Records(s.queue), []);
    Regroup(s.written, [r], rest + Records(s.queue), []);
  }

  lemma StepOrders(holding: bool, s: State, a: Action)
    requires Ordered(s) && (holding || s.held == []) && Enabled(s, a)
    ensures Ordered(Apply(holding, s, a))
  {
    match a
    case Append(r) => Queueing(s, Record(r));
    case SendFlush(id) => Queueing(s, Flush(id));
    case Receive => Taking(holding, s);
    case DrainOne => Writing(s);
    case _ =>
  }

  lemma StepConserves(holding: bool, s: State, a: Action)
    requires Conserved(holding, s) && Enabled(s, a)
    ensures Conserved(holding, Apply(holding, s, a))
  {
    StepOrders(holding, s, a);
    StepCounts(holding, s, a);
    StepPlaces(holding, s, a);
  }

  lemma StepCounts(holding: bool, s: State, a: Action)
    requires Counted(holding, s) && Enabled(s, a)
    ensures Counted(holding, Apply(holding, s, a))
  {
  }

  lemma StepPlaces(holding: bool, s: State, a: Action)
    requires Placed(s) && Enabled(s, a)
    ensures Placed(Apply(holding, s, a))
  {
    if a.Grant? { GrantPlaces(holding, s, a.id); }
    else if a.SendFlush? { SendPlaces(holding, s, a.id); }
    else { NothingPromised(holding, s, a); }
  }

  lemma GrantPlaces(holding: bool, s: State, id: nat)
    requires Placed(s) && Enabled(s, Grant(id))
    ensures Placed(Apply(holding, s, Grant(id)))
  {
  }

  lemma SendPlaces(holding: bool, s: State, id: nat)
    requires Placed(s) && Enabled(s, SendFlush(id))
    ensures Placed(Apply(holding, s, SendFlush(id)))
  {
  }

  lemma NothingPromised(holding: bool, s: State, a: Action)
    requires Placed(s) && Enabled(s, a) && !a.Grant? && !a.SendFlush?
    ensures Placed(Apply(holding, s, a))
  {
    var t := Apply(holding, s, a);
    assert |t.queue| <= |s.queue| || (HasRoom(s) && |t.queue| == |s.queue| + 1);
  }

  // ---- the barrier ----

  predicate Ahead(s: State, id: nat, n: nat) { id in s.called && s.called[id] <= n }

  predicate Barrier(s: State) {
    && (forall i :: 0 <= i < |s.queue| && s.queue[i].Flush? ==>
          Ahead(s, s.queue[i].id, |s.written| + |s.held| + |Records(s.queue[..i])|))
    && (s.phase.Draining? ==> Ahead(s, s.phase.id, |s.written| + |s.held|))
    && (forall id :: id in s.acked ==> Ahead(s, id, |s.written|))
    && (forall id :: id in s.called ==> s.called[id] <= |s.accepted|)
  }

  lemma StepKeepsBarrier(holding: bool, s: State, a: Action)
    requires Conserved(holding, s) && Barrier(s) && Enabled(s, a)
    ensures Barrier(Apply(holding, s, a))
  {
    var t := Apply(holding, s, a);
    match a
    case Append(r) => if HasRoom(s) { Queued(s, t, Record(r)); } else { Unmoved(s, t); }
    case SendFlush(id) => Queued(s, t, Flush(id));
    case Receive => Taken(s, t);
    case CallFlush(_) => Unmoved(s, t);
    case DrainOne => Unmoved(s, t);
    case Answer => Unmoved(s, t);
    case Close => Unmoved(s, t);
    case Finish => Unmoved(s, t);
    case Grant(_) => Unmoved(s, t);
    case CountDrop => Unmoved(s, t);
    case ReportDrop => Unmoved(s, t);
  }

  /** A step that leaves the queue alone and loses no record. */
  lemma Unmoved(s: State, t: State)
    requires Barrier(s) && t.queue == s.queue && t.accepted == s.accepted
    requires forall id :: id in s.called ==> id in t.called && t.called[id] == s.called[id]
    requires forall id :: id in t.called && id !in s.called ==> t.called[id] == |s.accepted|
    requires |t.written| + |t.held| == |s.written| + |s.held| && |s.written| <= |t.written|
    requires t.phase.Draining? ==> t.phase == s.phase
    requires forall id :: id in t.acked ==>
              id in s.acked || (s.phase == Draining(id) && s.held == [] && t.written == s.written)
    ensures Barrier(t)
  {
  }

  lemma Queued(s: State, t: State, m: Message)
    requires Barrier(s) && t.queue == s.queue + [m] && t.called == s.called && t.phase == s.phase && t.acked == s.acked
    requires t.written == s.written && t.held == s.held && |s.accepted| <= |t.accepted|
    requires |s.accepted| == |s.written| + |s.held| + |Records(s.queue)|
    requires m.Flush? ==> m.id in s.called
    ensures Barrier(t)
  {
    forall i | 0 <= i < |t.queue| && t.queue[i].Flush?
      ensures Ahead(t, t.queue[i].id, |t.written| + |t.held| + |Records(t.queue[..i])|)
    {
      assert t.queue[..i] == if i < |s.queue| then s.queue[..i] else s.queue;
    }
  }

  lemma Taken(s: State, t: State)
    requires Barrier(s) && s.queue != [] && t.queue == s.queue[1..] && t.called == s.called && t.acked == s.acked
    requires t.accepted == s.accepted && |s.written| <= |t.written|
    requires if s.queue[0].Record? then |t.written| + |t.held| == |s.written| + |s.held| + 1
              && t.phase == s.phase == Receiving
             else t.written == s.written && t.held == s.held && t.phase == Draining(s.queue[0].id)
    ensures Barrier(t)
  {
    forall i | 0 <= i < |t.queue| && t.queue[i].Flush?
      ensures Ahead(t, t.queue[i].id, |t.written| + |t.held| + |Records(t.queue[..i])|)
    {
      assert s.queue[i + 1] == t.queue[i];
      assert s.queue[..i + 1][1..] == t.queue[..i];
    }
    if s.queue[0].Flush? { assert s.queue[..0] == []; }
  }

  // ---- runs ----

  ghost predicate Steps(holding: bool, s: State, run: seq<Action>, t: State)
    decreases |run|
  {
    if run == [] then s == t
    else Enabled(s, run[0]) && Steps(holding, Apply(holding, s, run[0]), run[1..], t)
  }

  lemma {:induction false} RunGrows(holding: bool, s: State, run: seq<Action>, t: State)
    requires Steps(holding, s, run, t)
    ensures s.accepted <= t.accepted
    ensures forall id :: id in s.called ==> id in t.called && t.called[id] == s.called[id]
    decreases |run|
  {
    if run != [] {
      var u := Apply(holding, s, run[0]);
      RunGrows(holding, u, run[1..], t);
    }
  }

  lemma {:induction false} RunKeeps(holding: bool, s: State, run: seq<Action>, t: State)
    requires Conserved(holding, s) && Barrier(s) && Steps(holding, s, run, t)
    ensures Conserved(holding, t) && Barrier(t)
    decreases |run|
  {
    if run != [] {
      var u := Apply(holding, s, run[0]);
      StepConserves(holding, s, run[0]);
      StepKeepsBarrier(holding, s, run[0]);
      RunKeeps(holding, u, run[1..], t);
    }
  }

  ghost predicate Reachable(holding: bool, t: State) {
    exists run :: Steps(holding, Start(), run, t)
  }

  /** Nothing accepted is lost or reordered: it is written, held or queued, in that order; what
      was appended is accepted, dropped or refused and about to be counted; and of any number of
      drops, counted at the same time or not, one is reported. */
  lemma AcceptedIsConserved(holding: bool, s: State)
    requires Reachable(holding, s)
    ensures s.accepted == s.written + s.held + Records(s.queue)
    ensures s.appended == |s.accepted| + s.dropped + s.uncounted
    ensures |s.queue| + |s.granted| <= QUEUE_DEPTH
    ensures forall id :: id in s.granted ==> id in s.called && id !in s.sent
    ensures s.warnings <= 1 && (s.unreported == 0 ==> s.warnings == if s.dropped > 0 then 1 else 0)
    ensures s.phase.Done? ==> s.written == s.accepted
  {
    var run :| Steps(holding, Start(), run, s);
    RunKeeps(holding, Start(), run, s);
    Regroup(s.written, s.held, Records(s.queue), []);
    if s.phase.Done? { assert s.written + ([] + []) == s.written; }
  }

  /** A flush returns only when everything accepted before it was called is with the sink,
      however it waited for a place in the queue and whatever was appended meanwhile. */
  lemma FlushIsABarrier(holding: bool, s: State, id: nat, run: seq<Action>, t: State)
    requires Reachable(holding, s) && Enabled(s, CallFlush(id))
    requires Steps(holding, Apply(holding, s, CallFlush(id)), run, t) && id in t.acked
    ensures s.accepted <= t.written
  {
    var before :| Steps(holding, Start(), before, s);
    RunKeeps(holding, Start(), before, s);
    var u := Apply(holding, s, CallFlush(id));
    StepConserves(holding, s, CallFlush(id));
    StepKeepsBarrier(holding, s, CallFlush(id));
    RunKeeps(holding, u, run, t);
    RunGrows(holding, u, run, t);
    assert t.called[id] == |s.accepted|;
    assert t.written <= t.accepted && s.accepted <= t.accepted;
  }

  /** A record is refused exactly when the queue and the places promised to waiting flushes make up
      the whole depth; so with no flush waiting, exactly when the queue is full. */
  lemma DroppedOnlyWhenFull(holding: bool, s: State, r: Record)
    requires Reachable(holding, s) && !s.closed
    ensures var t := Apply(holding, s, Append(r));
            if |s.queue| + |s.granted| == QUEUE_DEPTH then t.uncounted == s.uncounted + 1 && t.accepted == s.accepted
            else t.uncounted == s.uncounted && t.accepted == s.accepted + [r]
    ensures forall id :: id in s.granted ==> id in s.called && id !in s.sent
    ensures (forall id :: id in s.called ==> id in s.sent) ==>
              (Apply(holding, s, Append(r)).accepted == s.accepted <==> |s.queue| == QUEUE_DEPTH)
  {
    AcceptedIsConserved(holding, s);
    if forall id :: id in s.called ==> id in s.sent { assert s.granted == {}; }
  }

  // ---- holding records until a flush ----

  /** The same state of a writer that never holds anything. */
  function Unheld(s: State): State { s.(written := s.written + s.held, held := []) }

  function Undrained(run: seq<Action>): seq<Action> {
    if run == [] then [] else (if run[0].DrainOne? then [] else [run[0]]) + Undrained(run[1..])
  }

  lemma StepUnheld(s: State, a: Action)
    requires Enabled(s, a)
    ensures a.DrainOne? ==> Unheld(Apply(true, s, a)) == Unheld(s)
    ensures !a.DrainOne? ==> Enabled(Unheld(s), a) && Apply(false, Unheld(s), a) == Unheld(Apply(true, s, a))
  {
    if a.DrainOne? {
      assert s.held == [s.held[0]] + s.held[1..];
      Regroup(s.written, [s.held[0]], s.held[1..], []);
    } else if a.Receive? && s.queue[0].Record? {
      Regroup(s.written, s.held, [s.queue[0].record], []);
    }
  }

  lemma {:induction false} RunUnheld(s: State, run: seq<Action>, t: State)
    requires Steps(true, s, run, t)
    ensures Steps(false, Unheld(s), Undrained(run), Unheld(t))
    decreases |run|
  {
    if run != [] {
      StepUnheld(s, run[0]);
      RunUnheld(Apply(true, s, run[0]), run[1..], t);
      var rest := Undrained(run[1..]);
      assert Undrained(run) == if run[0].DrainOne? then rest else [run[0]] + rest;
      assert ([run[0]] + rest)[1..] == rest;
    }
  }

  /** Holding records back changes when they are written and nothing else: the same calls give an
      immediate writer the same queue, answers and drops, and the same records in the same order
      once nothing is held. */
  lemma HoldingWritesTheSame(run: seq<Action>, t: State)
    requires Steps(true, Start(), run, t)
    ensures exists u: State :: Steps(false, Start(), Undrained(run), u)
              && u.written == t.written + t.held && u.held == []
              && u.queue == t.queue && u.acked == t.acked && u.uncounted == t.uncounted && u.dropped == t.dropped
              && u.accepted == t.accepted
              && (t.held == [] ==> u.written == t.written)
  {
    RunUnheld(Start(), run, t);
    assert Unheld(Start()) == Start();
    var u := Unheld(t);
    assert t.held == [] ==> u.written == t.written;
  }

  // ---- the writer's own loop ----

  /** Everything held is written, in order. */
  function Drained(s: State): State { s.(written := s.written + s.held, held := []) }

  lemma {:induction false} DrainingIsARun(holding: bool, s: State)
    requires s.phase.Draining? || s.phase.Ending?
    ensures Steps(holding, s, seq(|s.held|, _ => DrainOne), Drained(s))
    decreases |s.held|
  {
    var run := seq(|s.held|, _ => DrainOne);
    if s.held != [] {
      var t := Apply(holding, s, DrainOne);
      DrainingIsARun(holding, t);
      assert run[1..] == seq(|t.held|, _ => DrainOne);
      assert s.held == [s.held[0]] + t.held;
      Regroup(s.written, [s.held[0]], t.held, []);
    }
  }

  /** One turn of the loop: a record is written or held, a flush writes all that is held and is
      then answered. */
  function Handled(holding: bool, s: State): State
    requires Enabled(s, Receive)
  {
    var t := Apply(holding, s, Receive);
    if t.phase.Draining? then Apply(holding, Drained(t), Answer) else t
  }

  /** One call of append, with no other call between its steps. */
  function Appended(holding: bool, s: State, r: Record): State
    requires Enabled(s, Append(r))
  {
    var t := Apply(holding, s, Append(r));
    if HasRoom(s) then t else Apply(holding, Apply(holding, t, CountDrop), ReportDrop)
  }

  /** A writer whose loop is run one turn at a time; the ghost fields are the history. */
  class CaptureWriter {
    const holding: bool
    var queue: seq<Message>
    var granted: set<nat>
    var closed: bool
    var phase: Phase
    var held: seq<Record>
    var written: seq<Record>
    var dropped: nat
    var reported: bool
    var acked: set<nat>
    ghost var accepted: seq<Record>
    ghost var uncounted: nat
    ghost var unreported: nat
    ghost var appended: nat
    ghost var warnings: nat
    ghost var called: map<nat, nat>
    ghost var sent: set<nat>

    constructor (holding: bool)
      ensures this.holding == holding && Snapshot() == Start()
    {
      this.holding := holding;
      queue, granted, closed, phase, held, written := [], {}, false, Receiving, [], [];
      dropped, reported, acked := 0, false, {};
      uncounted, unreported := 0, 0;
      accepted, appended, warnings, called, sent := [], 0, 0, map[], {};
    }

    ghost function Snapshot(): State
      reads this
    {
      State.State(queue, granted, closed, phase, held, written, uncounted, dropped, unreported, reported, acked,
                  accepted, appended, warnings, called, sent)
    }

    method Append(r: Record)
      requires Enabled(Snapshot(), Action.Append(r))
      modifies this
      ensures Snapshot() == Appended(holding, old(Snapshot()), r)
    {
      appended := appended + 1;
      if |queue| + |granted| < QUEUE_DEPTH {
        queue := queue + [Record(r)];
        accepted := accepted + [r];
      } else {
        dropped := dropped + 1;
        if !reported { warnings := warnings + 1; }
        reported := true;
      }
    }

    /** Handles the message at the head of the queue. */
    method Handle()
      requires Enabled(Snapshot(), Action.Receive)
      modifies this
      ensures Snapshot() == Handled(holding, old(Snapshot()))
    {
      var message := queue[0];
      queue := queue[1..];
      match message
      case Record(r) =>
        if holding { held := held + [r]; } else { written := written + [r]; }
      case Flush(id) =>
        WriteHeld();
        acked := acked + {id};
    }

    /** Hands every held record to the sink. */
    method WriteHeld()
      modifies this`held, this`written
      ensures written == old(written) + old(held) && held == []
    {
      for i := 0 to |held|
        invariant held == old(held) && written == old(written) + held[..i]
      {
        written := written + [held[i]];
      }
      assert held[..|held|] == held;
      held := [];
    }

    /** Everything still queued when the last sender has gone. */
    method Finish()
      requires closed && phase.Receiving? && (holding || held == [])
      modifies this
      ensures phase == Done && queue == [] && held == []
      ensures written == old(written) + (old(held) + old(Records(queue)))
      ensures acked == old(acked) + set i | 0 <= i < |old(queue)| && old(queue)[i].Flush? :: old(queue)[i].id
      ensures accepted == old(accepted) && dropped == old(dropped) && closed
    {
      ghost var all := queue;
      ghost var n := 0;
      while queue != []
        invariant phase.Receiving? && closed && n <= |all| && queue == all[n..] && (holding || held == [])
        invariant written + (held + Records(queue)) == old(written) + (old(held) + Records(all))
        invariant acked == old(acked) + set i | 0 <= i < n && all[i].Flush? :: all[i].id
        invariant accepted == old(accepted) && dropped == old(dropped)
        decreases |queue|
      {
        ghost var before := Snapshot();
        Handle();
        HandledMoves(holding, before);
        n := n + 1;
      }
      assert held + [] == held;
      WriteHeld();
      phase := Done;
    }
  }

  /** One turn moves records along and loses none. */
  lemma HandledMoves(holding: bool, s: State)
    requires Enabled(s, Receive) && (holding || s.held == [])
    ensures var t := Handled(holding, s);
            && t.queue == s.queue[1..] && t.phase.Receiving? && (holding || t.held == [])
            && t.written + (t.held + Records(t.queue)) == s.written + (s.held + Records(s.queue))
            && t.acked == s.acked + (if s.queue[0].Flush? then {s.queue[0].id} else {})
            && t.accepted == s.accepted && t.dropped == s.dropped && t.closed == s.closed
  {
    var u := Apply(holding, s, Receive);
    Taking(holding, s);
    DrainedMoves(u.written, u.held, Records(u.queue));
  }

  lemma DrainedMoves(written: seq<Record>, held: seq<Record>, rest: seq<Record>)
    ensures written + held + ([] + rest) == written + (held + rest)
  {
  }

  // ---- every flush returns ----

  /** What the writer thread does by itself. */
  predicate Writers(run: seq<Action>) {
    forall i :: 0 <= i < |run| ==> run[i].Receive? || run[i].DrainOne? || run[i].Answer?
  }

  lemma {:induction false} StepsThen(holding: bool, s: State, a: seq<Action>, t: State, b: seq<Action>, u: State)
    requires Steps(holding, s, a, t) && Steps(holding, t, b, u)
    ensures Steps(holding, s, a + b, u)
    decreases |a|
  {
    if a == [] {
      assert a + b == b;
    } else {
      assert (a + b)[0] == a[0] && (a + b)[1..] == a[1..] + b;
      StepsThen(holding, Apply(holding, s, a[0]), a[1..], t, b, u);
    }
  }

  lemma OneStep(holding: bool, s: State, a: Action)
    requires Enabled(s, a)
    ensures Steps(holding, s, [a], Apply(holding, s, a))
  {
    assert [a][1..] == [];
  }

  /** A flush the writer has received is answered once what was held is written. */
  lemma Answers(holding: bool, s: State) returns (run: seq<Action>, t: State)
    requires s.phase.Draining?
    ensures Steps(holding, s, run, t) && Writers(run)
    ensures t == s.(written := s.written + s.held, held := [], phase := Receiving, acked := s.acked + {s.phase.id})
  {
    var d := Drained(s);
    t := Apply(holding, d, Answer);
    DrainingIsARun(holding, s);
    OneStep(holding, d, Answer);
    StepsThen(holding, s, seq(|s.held|, _ => DrainOne), d, [Answer], t);
    run := seq(|s.held|, _ => DrainOne) + [Answer];
  }

  /** One turn of the writer's loop is a run of its steps. */
  lemma TurnIsARun(holding: bool, s: State) returns (run: seq<Action>)
    requires Enabled(s, Receive)
    ensures Steps(holding, s, run, Handled(holding, s)) && Writers(run)
  {
    var t := Apply(holding, s, Receive);
    OneStep(holding, s, Receive);
    run := [Receive];
    if t.phase.Draining? {
      var rest, u := Answers(holding, t);
      StepsThen(holding, s, [Receive], t, rest, u);
      run := [Receive] + rest;
    }
  }

  /** Turn by turn the queue is worked off, and every flush in it has returned. */
  lemma {:induction false} QueueIsWorkedOff(holding: bool, s: State) returns (run: seq<Action>, t: State)
    requires s.phase.Receiving? && (holding || s.held == [])
    ensures Steps(holding, s, run, t) && Writers(run)
    ensures t.queue == [] && t.phase.Receiving? && (holding || t.held == [])
    ensures t == s.(queue := t.queue, held := t.held, written := t.written, acked := t.acked)
    ensures s.acked <= t.acked && forall i :: 0 <= i < |s.queue| && s.queue[i].Flush? ==> s.queue[i].id in t.acked
    decreases |s.queue|
  {
    if s.queue == [] {
      run, t := [], s;
    } else {
      var u := Handled(holding, s);
      var turn := TurnIsARun(holding, s);
      HandledMoves(holding, s);
      var rest;
      rest, t := QueueIsWorkedOff(holding, u);
      StepsThen(holding, s, turn, u, rest, t);
      run := turn + rest;
      forall i | 0 <= i < |s.queue| && s.queue[i].Flush? ensures s.queue[i].id in t.acked {
        if i > 0 { assert u.queue[i - 1] == s.queue[i]; }
      }
    }
  }

  /** From wherever the writer is between two turns or in one. */
  lemma WriterCatchesUp(holding: bool, s: State) returns (run: seq<Action>, t: State)
    requires (s.phase.Receiving? && (holding || s.held == [])) || s.phase.Draining?
    ensures Steps(holding, s, run, t) && Writers(run)
    ensures t.queue == [] && t.phase.Receiving? && (holding || t.held == [])
    ensures t == s.(queue := t.queue, phase := t.phase, held := t.held, written := t.written, acked := t.acked)
  {
    if s.phase.Draining? {
      var first, u := Answers(holding, s);
      var rest;
      rest, t := QueueIsWorkedOff(holding, u);
      StepsThen(holding, s, first, u, rest, t);
      run := first + rest;
    } else {
      run, t := QueueIsWorkedOff(holding, s);
    }
  }

  /** A flush for which there is a place gets into the queue by two steps of its own. */
  lemma GetsItsPlace(holding: bool, s: State, id: nat)
    requires !s.closed && id in s.called && id !in s.sent && id !in s.granted && |s.queue| + |s.granted| < QUEUE_DEPTH
    ensures Steps(holding, s, [Grant(id), SendFlush(id)], s.(queue := s.queue + [Flush(id)], sent := s.sent + {id}))
  {
    var t := Apply(holding, s, Grant(id));
    OneStep(holding, t, SendFlush(id));
    assert s.granted + {id} - {id} == s.granted;
    assert [Grant(id), SendFlush(id)][1..] == [SendFlush(id)];
  }

  /** A flush can always return: whenever it is called, while the queue is open and not every place in
      it is promised to another, the writer's own steps and two of the flush's end with its answer. */
  lemma EveryFlushCanReturn(holding: bool, s: State, id: nat) returns (run: seq<Action>, t: State)
    requires Reachable(holding, s) && !s.closed && id !in s.called && |s.granted| < QUEUE_DEPTH
    ensures Enabled(s, CallFlush(id)) && Steps(holding, Apply(holding, s, CallFlush(id)), run, t) && id in t.acked
  {
    var before :| Steps(holding, Start(), before, s);
    RunKeeps(holding, Start(), before, s);
    var called := Apply(holding, s, CallFlush(id));
    FlushIsNew(holding, s, id);
    var first, u := WriterCatchesUp(holding, called);
    GetsItsPlace(holding, u, id);
    var v := u.(queue := [Flush(id)], sent := u.sent + {id});
    assert u.queue + [Flush(id)] == [Flush(id)];
    StepsThen(holding, called, first, u, [Grant(id), SendFlush(id)], v);
    var rest;
    rest, t := QueueIsWorkedOff(holding, v);
    StepsThen(holding, called, first + [Grant(id), SendFlush(id)], v, rest, t);
    run := first + [Grant(id), SendFlush(id)] + rest;
    assert v.queue[0] == Flush(id);
  }

  /** Only a flush that was called is in the queue or promised a place in it, and a writer that has
      stopped has seen the queue closed. */
  lemma FlushIsNew(holding: bool, s: State, id: nat)
    requires Reachable(holding, s) && !s.closed && id !in s.called
    ensures id !in s.granted && id !in s.sent
    ensures (s.phase.Receiving? && (holding || s.held == [])) || s.phase.Draining?
  {
    var before :| Steps(holding, Start(), before, s);
    RunKeeps(holding, Start(), before, s);
    SentWereCalled(holding, Start(), before, s);
  }

  lemma {:induction false} SentWereCalled(holding: bool, s: State, run: seq<Action>, t: State)
    requires Steps(holding, s, run, t) && s.sent <= s.called.Keys && s.granted <= s.called.Keys
    ensures t.sent <= t.called.Keys
    decreases |run|
  {
    if run != [] { SentWereCalled(holding, Apply(holding, s, run[0]), run[1..], t); }
  }

  /** The queue starts open and empty, and takes the first record. */
  lemma FirstRecord(holding: bool, r: Record)
    ensures Enabled(Start(), Append(r))
    ensures Apply(holding, Start(), Append(r)) == Start().(queue := [Record(r)], accepted := [r], appended := 1)
  {
  }
}
