/** Whole runs of the manager: reloads with demands, landings, failed requests and charges between
    them. */
module UpstreamRuns {
  import opened Common
  import opened Servers
  import opened Text
  import opened Upstreams

  /** Every entry there has been, and which of them the names are served by. */
  datatype Moment = Moment(world: World, serving: map<string, nat>)

  datatype Event = Use | Reload(servers: Configs)

  ghost predicate Moved(s: Moment, e: Event, t: Moment) {
    match e
    case Use => t.serving == s.serving && Used(s.world, t.world)
    case Reload(servers) => Sound(s.world, s.serving) && Reloaded(s.world, s.serving, servers, t.world, t.serving)
  }

  /** From an empty manager on, event i takes moment i to the next. */
  ghost predicate Run(moments: seq<Moment>, events: seq<Event>) {
    && |moments| == |events| + 1
    && moments[0].serving == map[] && Sound(moments[0].world, moments[0].serving)
    && forall i :: 0 <= i < |events| ==> Moved(moments[i], events[i], moments[i + 1])
  }

  /** What the reloads said about one name, oldest first. */
  function HistoryOf(events: seq<Event>, n: string): seq<Option<Server>> {
    if events == [] then []
    else
      var before := HistoryOf(events[..|events| - 1], n);
      match events[|events| - 1]
      case Use => before
      case Reload(servers) => before + [if n in servers then Some(servers[n]) else None]
  }

  lemma UseKeeps(s: Moment, t: Moment, n: string)
    requires Sound(s.world, s.serving) && t.serving == s.serving && Used(s.world, t.world)
    ensures Sound(t.world, t.serving) && EntryOf(t.world, t.serving, n) == EntryOf(s.world, s.serving, n)
  {
    forall k | k in t.serving ensures Owned(t.world, k, t.serving[k]) {
      assert Owned(s.world, k, s.serving[k]);
    }
  }

  /** Whatever is done with its entries between the reloads, every name's server and retired flag
      are those its own history of configs gives it. */
  lemma {:induction false} RunFollowsHistory(moments: seq<Moment>, events: seq<Event>, n: string)
    requires Run(moments, events)
    ensures var t := moments[|events|];
            Sound(t.world, t.serving) && EntryOf(t.world, t.serving, n) == After(HistoryOf(events, n))
    decreases |events|
  {
    if events != [] {
      var before, last := events[..|events| - 1], |events| - 1;
      var u, t := moments[last], moments[last + 1];
      RunFollowsHistory(moments[..last + 1], before, n);
      assert Moved(u, events[last], t);
      match events[last]
      case Use => UseKeeps(u, t, n);
      case Reload(servers) =>
        ReloadIsNext(u.world, u.serving, servers, t.world, t.serving, n);
        var all := HistoryOf(events, n);
        assert all[..|all| - 1] == HistoryOf(before, n);
    }
  }

  /** So after any run the entry a name is served by is retired, and refuses every demand, exactly
      when one of the reloads since the name got its transport switched it off. */
  lemma RetiredAfterARun(moments: seq<Moment>, events: seq<Event>, n: string)
    requires Run(moments, events) && n in moments[|events|].serving
    ensures var t := moments[|events|];
            && t.serving[n] < |t.world.entries|
            && (t.world.entries[t.serving[n]].retired <==> exists k: nat :: SwitchedOffAt(HistoryOf(events, n), k))
  {
    var t := moments[|events|];
    RunFollowsHistory(moments, events, n);
    assert Owned(t.world, n, t.serving[n]);
    RetiredExactlyWhen(HistoryOf(events, n));
  }

  // ---- a reload among uses ----

  /** The steps of one reload: a name is given its entry, the entry a name had is retired, the
      channel of the entry a name had is told. */
  datatype Work = Placing(n: string, server: Server) | Retiring(n: string) | Telling(n: string)

  /** The entries and the new map, as far as it has been filled. */
  datatype Stage = Stage(world: World, next: map<string, nat>)

  function Do(s: Stage, m: map<string, nat>, a: Work): Stage {
    var w := s.world;
    match a
    case Placing(n, server) =>
      if n in m && !Owned(w, n, m[n]) then s
      else var (v, id) := Place(w, m, n, server); Stage(v, s.next[n := id])
    case Retiring(n) =>
      if n !in m || m[n] >= |w.entries| then s
      else s.(world := w.(entries := w.entries[m[n] := RetiredUpstream(w.entries[m[n]])]))
    case Telling(n) =>
      if n !in m || m[n] >= |w.entries| || w.entries[m[n]].channel >= |w.channels| then s
      else
        var c := w.entries[m[n]].channel;
        s.(world := w.(channels := w.channels[c := w.channels[c] + News()]))
  }

  function DoAll(s: Stage, m: map<string, nat>, works: seq<Work>): Stage {
    if works == [] then s else Do(DoAll(s, m, works[..|works| - 1]), m, works[|works| - 1])
  }

  lemma {:induction false} DoMore(s: Stage, m: map<string, nat>, xs: seq<Work>, ys: seq<Work>)
    ensures DoAll(s, m, xs + ys) == DoAll(DoAll(s, m, xs), m, ys)
    decreases |ys|
  {
    if ys == [] {
      assert xs + ys == xs;
    } else {
      var n := |ys| - 1;
      assert (xs + ys)[..|xs + ys| - 1] == xs + ys[..n];
      DoMore(s, m, xs, ys[..n]);
    }
  }

  lemma DoneNext(s: Stage, m: map<string, nat>, works: seq<Work>, i: nat)
    requires i < |works|
    ensures DoAll(s, m, works[..i + 1]) == Do(DoAll(s, m, works[..i]), m, works[i])
  {
    assert works[..i + 1][..i] == works[..i];
  }

  /** All of a reload, in the order of the source. */
  function Works(servers: Configs, names: seq<string>, retire: seq<string>, announce: seq<string>): seq<Work>
    requires forall n :: n in names ==> n in servers
  {
    Placings(servers, names) + Retirings(retire) + Tellings(announce)
  }

  function Placings(servers: Configs, names: seq<string>): seq<Work>
    requires forall n :: n in names ==> n in servers
  {
    seq(|names|, i requires 0 <= i < |names| => assert names[i] in names; Placing(names[i], servers[names[i]]))
  }

  function Retirings(retire: seq<string>): seq<Work> {
    seq(|retire|, i requires 0 <= i < |retire| => Retiring(retire[i]))
  }

  function Tellings(announce: seq<string>): seq<Work> {
    seq(|announce|, i requires 0 <= i < |announce| => Telling(announce[i]))
  }

  lemma {:induction false} PlacingsDone(w: World, m: map<string, nat>, servers: Configs, names: seq<string>, i: nat)
    requires Sound(w, m) && Sorted(names) && (forall n :: n in names <==> n in servers) && i <= |names|
    ensures var s := DoAll(Stage(w, map[]), m, Placings(servers, names)[..i]);
            FirstLoop(w, m, servers, s.world, s.next) && s.next.Keys == Sync.Upto(names, i, servers.Keys)
    decreases i
  {
    if i > 0 {
      var works := Placings(servers, names);
      PlacingsDone(w, m, servers, names, i - 1);
      DoneNext(Stage(w, map[]), m, works, i - 1);
      NextName(names, i - 1, servers);
      var s := DoAll(Stage(w, map[]), m, works[..i - 1]);
      PlaceKeeps(w, m, servers, s.world, s.next, names[i - 1]);
    }
  }

  lemma RetiresOne(v: World, m: map<string, nat>, names: seq<string>, entries: seq<Upstream>, n: string)
    requires InPlace(v, m) && RetiredUpto(v, m, names, entries) && n in m
    ensures m[n] < |entries| && RetiredUpto(v, m, names + [n], entries[m[n] := RetiredUpstream(entries[m[n]])])
  {
  }

  lemma RetiresNext(s: Stage, t: Stage, m: map<string, nat>, retire: seq<string>, i: nat)
    requires InPlace(s.world, m) && i < |retire| && retire[i] in m
    requires t == s.(world := s.world.(entries := t.world.entries))
    requires RetiredUpto(s.world, m, retire[..i], t.world.entries)
    ensures var u := Do(t, m, Retiring(retire[i]));
            u == s.(world := s.world.(entries := u.world.entries))
            && RetiredUpto(s.world, m, retire[..i + 1], u.world.entries)
  {
    RetiresOne(s.world, m, retire[..i], t.world.entries, retire[i]);
    assert retire[..i + 1] == retire[..i] + [retire[i]];
  }

  lemma {:induction false} RetiringsDone(s: Stage, m: map<string, nat>, retire: seq<string>, i: nat)
    requires InPlace(s.world, m) && i <= |retire| && forall n :: n in retire ==> n in m
    ensures var t := DoAll(s, m, Retirings(retire)[..i]);
            t == s.(world := s.world.(entries := t.world.entries))
            && RetiredUpto(s.world, m, retire[..i], t.world.entries)
    decreases i
  {
    if i > 0 {
      RetiringsDone(s, m, retire, i - 1);
      DoneNext(s, m, Retirings(retire), i - 1);
      assert retire[i - 1] in retire;
      RetiresNext(s, DoAll(s, m, Retirings(retire)[..i - 1]), m, retire, i - 1);
    }
  }

  lemma TellsOne(v: World, m: map<string, nat>, names: seq<string>, channels: seq<seq<Relay.Family>>, n: string)
    requires InPlace(v, m) && ToldUpto(v, m, names, channels) && n in m && n !in names
    ensures var c := v.entries[m[n]].channel;
            c < |channels| && ToldUpto(v, m, names + [n], channels[c := channels[c] + News()])
  {
  }

  lemma TellsNext(s: Stage, t: Stage, m: map<string, nat>, announce: seq<string>, i: nat)
    requires InPlace(s.world, m) && i < |announce| && announce[i] in m && announce[i] !in announce[..i]
    requires t == s.(world := s.world.(channels := t.world.channels))
    requires ToldUpto(s.world, m, announce[..i], t.world.channels)
    ensures var u := Do(t, m, Telling(announce[i]));
            u == s.(world := s.world.(channels := u.world.channels))
            && ToldUpto(s.world, m, announce[..i + 1], u.world.channels)
  {
    TellsOne(s.world, m, announce[..i], t.world.channels, announce[i]);
    assert announce[..i + 1] == announce[..i] + [announce[i]];
  }

  lemma {:induction false} TellingsDone(s: Stage, m: map<string, nat>, announce: seq<string>, i: nat)
    requires InPlace(s.world, m) && Sorted(announce) && i <= |announce| && forall n :: n in announce ==> n in m
    ensures var t := DoAll(s, m, Tellings(announce)[..i]);
            t == s.(world := s.world.(channels := t.world.channels))
            && ToldUpto(s.world, m, announce[..i], t.world.channels)
    decreases i
  {
    if i > 0 {
      TellingsDone(s, m, announce, i - 1);
      DoneNext(s, m, Tellings(announce), i - 1);
      assert announce[i - 1] in announce;
      NotYet(announce, i - 1);
      TellsNext(s, DoAll(s, m, Tellings(announce)[..i - 1]), m, announce, i - 1);
    }
  }

  /** Names and lists as a reload of `servers` over `m` makes them. */
  ghost predicate Lists(w: World, m: map<string, nat>, servers: Configs, names: seq<string>, retire: seq<string>,
                        announce: seq<string>)
    requires Sound(w, m)
  {
    && Sync.IsList(names, servers.Keys)
    && (forall n :: n in retire <==> n in RetiringNames(Configured(w, m), servers))
    && Sync.IsList(announce, ReplacedNames(Configured(w, m), servers))
  }

  /** Undisturbed, those steps are a reload. */
  lemma WorksReload(w: World, m: map<string, nat>, servers: Configs, names: seq<string>, retire: seq<string>,
                    announce: seq<string>)
    requires Sound(w, m) && Lists(w, m, servers, names, retire, announce)
    ensures var t := DoAll(Stage(w, map[]), m, Works(servers, names, retire, announce));
            Reloaded(w, m, servers, t.world, t.next)
  {
    var placed := DoAll(Stage(w, map[]), m, Placings(servers, names));
    PlacingsDone(w, m, servers, names, |names|);
    assert Placings(servers, names)[..|names|] == Placings(servers, names);
    LastName(names, servers);
    OldOnes(w, m, servers, placed.world, placed.next);
    AllOld(w, m, servers, retire, announce);
    RetiredAndTold(placed, m, retire, announce);
    DoMore(Stage(w, map[]), m, Placings(servers, names), Retirings(retire));
    DoMore(Stage(w, map[]), m, Placings(servers, names) + Retirings(retire), Tellings(announce));
    var t := DoAll(Stage(w, map[]), m, Works(servers, names, retire, announce));
    ReloadDone(w, m, servers, placed.world, placed.next, retire, announce, t.world);
  }

  lemma RetiredAndTold(s: Stage, m: map<string, nat>, retire: seq<string>, announce: seq<string>)
    requires InPlace(s.world, m) && Sorted(announce) && forall n :: n in retire || n in announce ==> n in m
    ensures var t := DoAll(DoAll(s, m, Retirings(retire)), m, Tellings(announce));
            && t.next == s.next && t.world.madeFor == s.world.madeFor && t.world.openedFor == s.world.openedFor
            && RetiredUpto(s.world, m, retire, t.world.entries) && ToldUpto(s.world, m, announce, t.world.channels)
  {
    var u := DoAll(s, m, Retirings(retire));
    RetiringsDone(s, m, retire, |retire|);
    assert Retirings(retire)[..|retire|] == Retirings(retire) && retire[..|retire|] == retire;
    RetiredInPlace(s.world, m, retire, u.world.entries);
    TellingsDone(u, m, announce, |announce|);
    assert Tellings(announce)[..|announce|] == Tellings(announce) && announce[..|announce|] == announce;
    SameChannels(s.world, m, retire, u.world.entries, announce, DoAll(u, m, Tellings(announce)).world.channels);
  }

  /** A step of the reload, or a use of an entry by a demand, a landing, a failed request or a charge. */
  datatype Turn = Reloading(work: Work) | Using(id: nat, slot: SlotProtocol.Slot, deadline: Option<int>)

  function Taken(s: Stage, m: map<string, nat>, turn: Turn): Stage {
    match turn
    case Reloading(work) => Do(s, m, work)
    case Using(id, slot, deadline) =>
      if id >= |s.world.entries| then s
      else
        var used := s.world.entries[id].(slot := slot, deadline := deadline);
        s.(world := s.world.(entries := s.world.entries[id := used]))
  }

  function AllTaken(s: Stage, m: map<string, nat>, turns: seq<Turn>): Stage {
    if turns == [] then s else Taken(AllTaken(s, m, turns[..|turns| - 1]), m, turns[|turns| - 1])
  }

  function WorksIn(turns: seq<Turn>): seq<Work> {
    if turns == [] then []
    else
      var before := WorksIn(turns[..|turns| - 1]);
      match turns[|turns| - 1]
      case Reloading(work) => before + [work]
      case Using(_, _, _) => before
  }

  /** A world without what uses change. */
  function Bare(w: World): World {
    w.(entries := seq(|w.entries|,
                      i requires 0 <= i < |w.entries| => w.entries[i].(slot := SlotProtocol.Idle, deadline := None)))
  }

  function BareStage(s: Stage): Stage { s.(world := Bare(s.world)) }

  /** No step of the reload looks at what uses change. */
  lemma DoBare(s: Stage, m: map<string, nat>, a: Work)
    ensures BareStage(Do(s, m, a)) == Do(BareStage(s), m, a)
  {
    var w, b := s.world, Bare(s.world);
    if a.Placing? {
      assert a.n in m ==> (Owned(w, a.n, m[a.n]) <==> Owned(b, a.n, m[a.n]));
      if !(a.n in m && !Owned(w, a.n, m[a.n])) {
        assert Bare(Place(w, m, a.n, a.server).0).entries == Place(b, m, a.n, a.server).0.entries;
      }
    } else if a.n in m && m[a.n] < |w.entries| {
      assert Bare(Do(s, m, a).world).entries == Do(BareStage(s), m, a).world.entries;
    }
  }

  lemma {:induction false} UsesDisappear(s: Stage, m: map<string, nat>, turns: seq<Turn>)
    ensures BareStage(AllTaken(s, m, turns)) == DoAll(BareStage(s), m, WorksIn(turns))
    decreases |turns|
  {
    if turns != [] {
      var before, turn := turns[..|turns| - 1], turns[|turns| - 1];
      UsesDisappear(s, m, before);
      var t := AllTaken(s, m, before);
      match turn
      case Reloading(work) =>
        DoBare(t, m, work);
        var works := WorksIn(turns);
        assert works[..|works| - 1] == WorksIn(before);
      case Using(id, slot, deadline) =>
        assert Bare(Taken(t, m, turn).world).entries == Bare(t.world).entries;
    }
  }

  /** However uses of the entries fall between the steps of a reload, it leaves what it promises,
      name by name: entries, servers, retired flags, channels and news; only slots and deadlines
      are as their uses made them. */
  lemma ReloadAmongUses(w: World, m: map<string, nat>, servers: Configs, names: seq<string>, retire: seq<string>,
                        announce: seq<string>, turns: seq<Turn>)
    requires Sound(w, m) && Lists(w, m, servers, names, retire, announce)
    requires WorksIn(turns) == Works(servers, names, retire, announce)
    ensures var t := AllTaken(Stage(w, map[]), m, turns);
            Sound(Bare(w), m) && Reloaded(Bare(w), m, servers, Bare(t.world), t.next)
  {
    UsesDisappear(Stage(w, map[]), m, turns);
    BareSound(w, m);
    assert Configured(Bare(w), m) == Configured(w, m);
    WorksReload(Bare(w), m, servers, names, retire, announce);
  }

  lemma BareSound(w: World, m: map<string, nat>)
    requires Sound(w, m)
    ensures Sound(Bare(w), m)
  {
    forall n | n in m ensures Owned(Bare(w), n, m[n]) { assert Owned(w, n, m[n]); }
  }
}
