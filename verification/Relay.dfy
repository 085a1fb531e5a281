/** Relaying an upstream's list-changed notifications: a broadcast that overwrites its oldest
    events, and a task that turns what it receives into notifications to one client. */
module Relay {
  import opened Common

  /** How many events a receiver may fall behind before it is lapped. */
  const CHANGE_BACKLOG: nat := 16

  datatype Family = Tools | Resources | Prompts

  /** The families whose flag is an explicit yes. */
  function Declared(tools: Option<bool>, resources: Option<bool>, prompts: Option<bool>): seq<Family> {
    (if tools == Some(true) then [Tools] else [])
    + (if resources == Some(true) then [Resources] else [])
    + (if prompts == Some(true) then [Prompts] else [])
  }

  lemma DeclaredExactly(tools: Option<bool>, resources: Option<bool>, prompts: Option<bool>, f: Family)
    ensures f in Declared(tools, resources, prompts) <==>
              match f
              case Tools => tools == Some(true)
              case Resources => resources == Some(true)
              case Prompts => prompts == Some(true)
    ensures |Declared(tools, resources, prompts)| <= 3
  {
    var d := Declared(tools, resources, prompts);
    if tools == Some(true) { assert d[0] == Tools; }
    if prompts == Some(true) { assert d[|d| - 1] == Prompts; }
    if resources == Some(true) { assert d[if tools == Some(true) then 1 else 0] == Resources; }
  }

  /** One notification tried: which family, how many events had been published by then, and
      whether it went through. */
  datatype Attempt = Attempt(family: Family, published: nat, ok: bool)

  /** A session's relay ends only with its transport; a listen stream ends with its first failed
      send. */
  datatype Mode = Session | Listen

  datatype State = State(
    log: seq<Family>,         // everything ever published on the channel
    since: nat,               // how much of it came before the subscription
    cursor: nat,              // the receiver's place
    due: seq<Family>,         // notifications this turn still owes
    ended: bool,
    attempts: seq<Attempt>)   // history: every notification tried, in order

  datatype Action =
    | Publish(family: Family)
    | Receive
    | Send(ok: bool, closed: bool)
    | End                     // the transport closes or the client cancels

  predicate Enabled(s: State, a: Action) {
    match a
    case Publish(_) => true
    case Receive => !s.ended && s.due == [] && s.cursor < |s.log|
    case Send(ok, closed) => !s.ended && s.due != [] && !(ok && closed)
    case End => !s.ended
  }

  /** The oldest event the channel still holds. */
  function Oldest(s: State): nat {
    if |s.log| > CHANGE_BACKLOG then |s.log| - CHANGE_BACKLOG else 0
  }

  function Apply(mode: Mode, promised: seq<Family>, s: State, a: Action): State
    requires Enabled(s, a)
  {
    match a
    case Publish(f) => s.(log := s.log + [f])
    case Receive =>
      if s.cursor < Oldest(s) then s.(cursor := Oldest(s), due := promised)
      else s.(cursor := s.cursor + 1, due := if s.log[s.cursor] in promised then [s.log[s.cursor]] else [])
    case Send(ok, closed) =>
      s.(attempts := s.attempts + [Attempt(s.due[0], |s.log|, ok)],
         due := s.due[1..],
         ended := !ok && (mode.Listen? || closed))
    case End => s.(ended := true)
  }

  /** A subscription sees what is published from then on. */
  function Subscribed(log: seq<Family>): State {
    State(log, |log|, |log|, [], false, [])
  }

  // ---- the invariant ----

  /** Attempt i was of the family of event k, and made after it. */
  predicate Since(s: State, k: nat, i: nat)
    requires k < |s.log| && i < |s.attempts|
  {
    s.attempts[i].family == s.log[k] && s.attempts[i].published > k
  }

  /** The notification of event k was tried after the event. */
  ghost predicate Tried(s: State, k: nat)
    requires k < |s.log|
  {
    exists i :: 0 <= i < |s.attempts| && Since(s, k, i)
  }

  /** And went through, so the client was told of the event. */
  ghost predicate Told(s: State, k: nat)
    requires k < |s.log|
  {
    exists i :: 0 <= i < |s.attempts| && Since(s, k, i) && s.attempts[i].ok
  }

  ghost predicate Inv(mode: Mode, promised: seq<Family>, s: State) {
    && s.since <= s.cursor <= |s.log|
    && (forall f :: f in s.due ==> f in promised)
    && (forall i :: 0 <= i < |s.attempts| ==> s.attempts[i].family in promised && s.attempts[i].published <= |s.log|)
    && (mode.Listen? && !s.ended ==> forall i :: 0 <= i < |s.attempts| ==> s.attempts[i].ok)
    && (!s.ended ==>
          forall k :: s.since <= k < s.cursor && s.log[k] in promised ==> s.log[k] in s.due || Tried(s, k))
  }

  lemma TriedStays(s: State, t: State, k: nat)
    requires k < |s.log| && s.log <= t.log && s.attempts <= t.attempts
    ensures Tried(s, k) ==> Tried(t, k)
    ensures Told(s, k) ==> Told(t, k)
  {
    if i :| 0 <= i < |s.attempts| && Since(s, k, i) { assert Since(t, k, i); }
    if i :| 0 <= i < |s.attempts| && Since(s, k, i) && s.attempts[i].ok { assert Since(t, k, i) && t.attempts[i].ok; }
  }

  lemma SendKeeps(mode: Mode, promised: seq<Family>, s: State, ok: bool, closed: bool)
    requires Inv(mode, promised, s) && Enabled(s, Send(ok, closed))
    ensures Inv(mode, promised, Apply(mode, promised, s, Send(ok, closed)))
  {
    var t := Apply(mode, promised, s, Send(ok, closed));
    assert s.due == [s.due[0]] + t.due;
    forall k | s.since <= k < s.cursor && s.log[k] in promised ensures t.log[k] in t.due || Tried(t, k) {
      TriedStays(s, t, k);
      if s.log[k] == s.due[0] { assert Since(t, k, |s.attempts|); }
    }
  }

  lemma StepKeeps(mode: Mode, promised: seq<Family>, s: State, a: Action)
    requires Inv(mode, promised, s) && Enabled(s, a)
    ensures Inv(mode, promised, Apply(mode, promised, s, a))
  {
    if a.Send? {
      SendKeeps(mode, promised, s, a.ok, a.closed);
    } else {
      var t := Apply(mode, promised, s, a);
      forall k | s.since <= k < s.cursor && s.log[k] in promised && Tried(s, k) ensures Tried(t, k) {
        TriedStays(s, t, k);
      }
    }
  }

  ghost predicate Steps(mode: Mode, promised: seq<Family>, s: State, run: seq<Action>, t: State)
    decreases |run|
  {
    if run == [] then s == t
    else Enabled(s, run[0]) && Steps(mode, promised, Apply(mode, promised, s, run[0]), run[1..], t)
  }

  lemma {:induction false} RunKeeps(mode: Mode, promised: seq<Family>, s: State, run: seq<Action>, t: State)
    requires Inv(mode, promised, s) && Steps(mode, promised, s, run, t)
    ensures Inv(mode, promised, t) && s.log <= t.log && t.since == s.since
    decreases |run|
  {
    if run != [] {
      StepKeeps(mode, promised, s, run[0]);
      RunKeeps(mode, promised, Apply(mode, promised, s, run[0]), run[1..], t);
    }
  }

  ghost predicate Reachable(mode: Mode, promised: seq<Family>, t: State) {
    exists log, run :: Steps(mode, promised, Subscribed(log), run, t)
  }

  lemma Reached(mode: Mode, promised: seq<Family>, t: State)
    requires Reachable(mode, promised, t)
    ensures Inv(mode, promised, t)
  {
    var log, run :| Steps(mode, promised, Subscribed(log), run, t);
    RunKeeps(mode, promised, Subscribed(log), run, t);
  }

  // ---- no news is lost, nothing unpromised is sent ----

  predicate Quiet(s: State) { s.due == [] && s.cursor == |s.log| }

  /** What is still to come for a family: it is due, or the receiver was lapped, or an event of
      it has not been received. */
  predicate Owed(s: State, f: Family)
    requires s.cursor <= |s.log|
  {
    f in s.due || s.cursor < Oldest(s) || f in s.log[s.cursor..]
  }

  /** At any time an event of a promised family is still owed, or its notification was tried. On
      a listen stream a try that did not go through is the end of the stream. */
  lemma OwedUntilTold(mode: Mode, promised: seq<Family>, s: State, k: nat)
    requires Reachable(mode, promised, s) && !s.ended
    requires s.since <= k < |s.log| && s.log[k] in promised
    ensures s.cursor <= |s.log| && (Owed(s, s.log[k]) || Tried(s, k))
    ensures mode.Listen? ==> Owed(s, s.log[k]) || Told(s, k)
  {
    Reached(mode, promised, s);
    if k >= s.cursor { assert s.log[k] == s.log[s.cursor..][k - s.cursor]; }
    if Tried(s, k) {
      var i :| 0 <= i < |s.attempts| && Since(s, k, i);
      assert mode.Listen? ==> s.attempts[i].ok;
    }
  }

  /** However often the receiver was lapped: once it has caught up, the notification of every
      event of a promised family since the subscription was tried after the event; and a listen
      stream has told the client of every one. */
  lemma NoNewsIsLost(mode: Mode, promised: seq<Family>, s: State, k: nat)
    requires Reachable(mode, promised, s) && !s.ended && Quiet(s)
    requires s.since <= k < |s.log| && s.log[k] in promised
    ensures exists i :: 0 <= i < |s.attempts| && Since(s, k, i) && (mode.Listen? ==> s.attempts[i].ok)
  {
    OwedUntilTold(mode, promised, s, k);
  }

  /** How much had been published when a notification of the family last went through. */
  function ToldUpTo(attempts: seq<Attempt>, f: Family): nat {
    if attempts == [] then 0
    else
      var last, before := attempts[|attempts| - 1], ToldUpTo(attempts[..|attempts| - 1], f);
      if last.ok && last.family == f && last.published > before then last.published else before
  }

  lemma {:induction false} ThroughUpTo(attempts: seq<Attempt>, f: Family, k: nat)
    ensures k < ToldUpTo(attempts, f) <==>
              exists i :: 0 <= i < |attempts| && attempts[i].family == f && attempts[i].published > k && attempts[i].ok
  {
    if attempts != [] {
      var n := |attempts| - 1;
      ThroughUpTo(attempts[..n], f, k);
      if k < ToldUpTo(attempts[..n], f) {
        var i :| 0 <= i < n && attempts[..n][i].family == f && attempts[..n][i].published > k && attempts[..n][i].ok;
        assert attempts[i].family == f;
      }
      if i :| 0 <= i < n && attempts[i].family == f && attempts[i].published > k && attempts[i].ok {
        assert attempts[..n][i] == attempts[i];
      }
    }
  }

  /** A session that has caught up has told its client of event k unless each of the attempts of
      its family since, and there was at least one, failed: what a client has missed of a family
      is all there was since a notification of it last went through. */
  lemma LostExactlyWhen(promised: seq<Family>, s: State, k: nat)
    requires Reachable(Session, promised, s) && !s.ended && Quiet(s)
    requires s.since <= k < |s.log| && s.log[k] in promised
    ensures !Told(s, k) <==>
            (exists i :: 0 <= i < |s.attempts| && Since(s, k, i))
            && forall i :: 0 <= i < |s.attempts| && Since(s, k, i) ==> !s.attempts[i].ok
    ensures !Told(s, k) <==> ToldUpTo(s.attempts, s.log[k]) <= k
  {
    OwedUntilTold(Session, promised, s, k);
    ThroughUpTo(s.attempts, s.log[k], k);
    if i :| 0 <= i < |s.attempts| && s.attempts[i].family == s.log[k] && s.attempts[i].published > k
            && s.attempts[i].ok
    {
      assert Since(s, k, i);
    }
  }

  /** That happens: in any session that has caught up, an event whose one send fails, on a
      transport that stays open, leaves it caught up again, with that event never told. */
  lemma AFailedSendLosesNews(promised: seq<Family>, s: State, f: Family) returns (run: seq<Action>, t: State)
    requires Inv(Session, promised, s) && !s.ended && Quiet(s) && f in promised
    ensures Steps(Session, promised, s, run, t) && run == [Publish(f), Receive, Send(false, false)]
    ensures !t.ended && Quiet(t) && t.log == s.log + [f] && !Told(t, |s.log|)
  {
    var s1 := Apply(Session, promised, s, Publish(f));
    var s2 := Apply(Session, promised, s1, Receive);
    t := Apply(Session, promised, s2, Send(false, false));
    run := [Publish(f), Receive, Send(false, false)];
    assert run[1..] == [Receive, Send(false, false)] && run[1..][1..] == [Send(false, false)];
    assert Steps(Session, promised, s2, [Send(false, false)], t);
    assert Steps(Session, promised, s1, run[1..], t);
    forall i | 0 <= i < |t.attempts| && Since(t, |s.log|, i) ensures !t.attempts[i].ok {}
  }

  /** A family that was not promised is never sent, not even when the receiver was lapped. */
  lemma NothingUnpromised(mode: Mode, promised: seq<Family>, s: State, i: nat)
    requires Reachable(mode, promised, s) && i < |s.attempts|
    ensures s.attempts[i].family in promised
  {
    Reached(mode, promised, s);
  }

  // ---- it does catch up ----

  /** The next thing a relay does on its own. */
  function Next(s: State): Action
    requires !s.ended && !Quiet(s)
  {
    if s.due != [] then Send(true, false) else Receive
  }

  /** With nothing new published and sends that go through, it has caught up after finitely many
      steps of its own, at most 4 for every event it was behind and one for what it owed. */
  lemma {:induction false} CatchesUp(mode: Mode, promised: seq<Family>, s: State) returns (run: seq<Action>, t: State)
    requires Inv(mode, promised, s) && !s.ended && |promised| <= 3
    ensures Steps(mode, promised, s, run, t) && Quiet(t) && !t.ended && t.log == s.log
    ensures |run| <= 4 * (|s.log| - s.cursor) + |s.due|
    ensures forall i :: 0 <= i < |run| ==> run[i].Receive? || run[i] == Send(true, false)
    decreases |s.log| - s.cursor, |s.due|
  {
    if Quiet(s) {
      run, t := [], s;
    } else {
      var a := Next(s);
      StepKeeps(mode, promised, s, a);
      var rest, u := CatchesUp(mode, promised, Apply(mode, promised, s, a));
      run, t := [a] + rest, u;
      assert run[1..] == rest;
    }
  }

  /** Of the events of one family, sends that go through tell exactly those that were told before
      or whose family was still owed, however it catches up. */
  lemma {:induction false} CatchingUpTells(mode: Mode, promised: seq<Family>, s: State, run: seq<Action>, t: State,
                                           k: nat)
    requires Inv(mode, promised, s) && Steps(mode, promised, s, run, t) && Quiet(t)
    requires forall i :: 0 <= i < |run| ==> run[i].Receive? || run[i] == Send(true, false)
    requires k < |s.log| && s.log[k] in promised
    ensures t.log == s.log && (Told(t, k) <==> Told(s, k) || Owed(s, s.log[k]))
    decreases |run|
  {
    if run != [] {
      var u := Apply(mode, promised, s, run[0]);
      StepKeeps(mode, promised, s, run[0]);
      CatchingUpTells(mode, promised, u, run[1..], t, k);
      if run[0].Receive? { ReceiveMoves(mode, promised, s, k); } else { SendMoves(mode, promised, s, k); }
    }
  }

  lemma ReceiveMoves(mode: Mode, promised: seq<Family>, s: State, k: nat)
    requires Inv(mode, promised, s) && Enabled(s, Receive) && k < |s.log| && s.log[k] in promised
    ensures var u := Apply(mode, promised, s, Receive);
            u.cursor <= |u.log| && (Told(u, k) <==> Told(s, k)) && (Owed(u, s.log[k]) <==> Owed(s, s.log[k]))
  {
    var u := Apply(mode, promised, s, Receive);
    TriedStays(s, u, k);
    TriedStays(u, s, k);
    if s.cursor >= Oldest(s) {
      assert s.log[s.cursor..] == [s.log[s.cursor]] + s.log[u.cursor..];
    }
  }

  lemma SendMoves(mode: Mode, promised: seq<Family>, s: State, k: nat)
    requires Inv(mode, promised, s) && Enabled(s, Send(true, false)) && k < |s.log|
    ensures var u := Apply(mode, promised, s, Send(true, false));
            (Told(u, k) || Owed(u, s.log[k])) <==> (Told(s, k) || Owed(s, s.log[k]))
  {
    var u := Apply(mode, promised, s, Send(true, false));
    TriedStays(s, u, k);
    assert s.due == [s.due[0]] + u.due;
    if s.log[k] == s.due[0] {
      assert Since(u, k, |s.attempts|) && u.attempts[|s.attempts|].ok;
    } else if Told(u, k) {
      var i :| 0 <= i < |u.attempts| && Since(u, k, i) && u.attempts[i].ok;
      assert Since(s, k, i) && s.attempts[i].ok;
    }
  }

  /** So from any reachable state, with sends that go through, the client ends up told of every
      promised event, except of one whose own notifications have all failed before and whose
      family has nothing to come; on a listen stream there is none. */
  lemma EveryEventIsTold(mode: Mode, promised: seq<Family>, s: State, k: nat) returns (run: seq<Action>, t: State)
    requires Reachable(mode, promised, s) && !s.ended && |promised| <= 3
    requires s.since <= k < |s.log| && s.log[k] in promised
    ensures Steps(mode, promised, s, run, t) && t.log == s.log && !t.ended && Quiet(t)
    ensures forall i :: 0 <= i < |run| ==> run[i].Receive? || run[i] == Send(true, false)
    ensures s.cursor <= |s.log| && (Told(t, k) <==> Told(s, k) || Owed(s, s.log[k]))
    ensures mode.Listen? || !Tried(s, k) ==> Told(t, k)
  {
    Reached(mode, promised, s);
    run, t := CatchesUp(mode, promised, s);
    CatchingUpTells(mode, promised, s, run, t, k);
    OwedUntilTold(mode, promised, s, k);
  }

  /** A relay of a session outlives failed sends; a listen stream does not outlive one. */
  lemma {:induction false} FailuresEndOnlyListen(mode: Mode, promised: seq<Family>, s: State, run: seq<Action>,
                                                 t: State)
    requires Steps(mode, promised, s, run, t) && !s.ended
    requires forall i :: 0 <= i < |run| ==>
              !run[i].End? && (run[i].Send? ==> !run[i].closed && (mode.Session? || run[i].ok))
    ensures !t.ended
    decreases |run|
  {
    if run != [] {
      FailuresEndOnlyListen(mode, promised, Apply(mode, promised, s, run[0]), run[1..], t);
    }
  }

  /** A subscription starts open and with nothing owed: the first event after it is received and, if
      its family was promised, sent. */
  lemma FirstEventIsSent(mode: Mode, promised: seq<Family>, log: seq<Family>, f: Family)
    requires f in promised
    ensures exists t :: Steps(mode, promised, Subscribed(log), [Publish(f), Receive, Send(true, false)], t)
              && t.attempts == [Attempt(f, |log| + 1, true)] && t.due == [] && !t.ended
  {
    var s0 := Subscribed(log);
    var s1 := Apply(mode, promised, s0, Publish(f));
    assert s1.log[|log|] == f && |s1.log| == |log| + 1;
    var s2 := Apply(mode, promised, s1, Receive);
    assert s2.due == [f];
    var t := Apply(mode, promised, s2, Send(true, false));
    assert Steps(mode, promised, t, [], t);
    assert [Send(true, false)][1..] == [];
    assert Steps(mode, promised, s2, [Send(true, false)], t);
    assert [Receive, Send(true, false)][1..] == [Send(true, false)];
    assert Steps(mode, promised, s1, [Receive, Send(true, false)], t);
    assert [Publish(f), Receive, Send(true, false)][1..] == [Receive, Send(true, false)];
  }
}
