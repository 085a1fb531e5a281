/** Hot reload as a transition system: edits of the config file interleave with every step of a
    reload, from the poll that notices a change to the last of the three publications. */
module HotReload {
  import opened Common

  /** As much of a config as publishing it needs: its servers and its client scopes. */
  datatype Config = Config(servers: set<string>, clients: string)

  /** What the file holds, and the modification time and length it shows. */
  datatype File = File(content: string, stamp: nat)

  datatype Phase =
    | Idle                                             // between polls
    | Called                                           // a reload has begun
    | Stamped(stamp: Option<nat>)                      // the file was looked at
    | Loaded(stamp: Option<nat>, content: Option<string>) // and then read
    | Marked(config: Config)                           // the stamp is recorded, the config is good
    | ScopesStored(config: Config)
    | UpstreamsApplied(config: Config)

  /** A published value, and how many configs had been applied when it was. */
  datatype Live = Live(config: Config, version: nat)

  datatype State = State(
    disk: Option<File>,
    seen: Option<nat>,
    phase: Phase,
    scopes: Live, upstreams: Live, endpoints: Live,
    wrote: map<nat, string>,        // history: the content behind every stamp
    readings: seq<Option<string>>)     // history: what each reload read

  datatype Action =
    | Write(content: string, stamp: nat) | Remove
    | Poll | Hangup
    | TakeStamp | Load | Mark | StoreScopes | ApplyUpstreams | StoreEndpoints

  /** None for a file that cannot be read or does not parse. */
  type Parser = Option<string> -> Option<Config>

  function StampOf(disk: Option<File>): Option<nat> {
    match disk case None => None case Some(f) => Some(f.stamp)
  }

  function ContentOf(disk: Option<File>): Option<string> {
    match disk case None => None case Some(f) => Some(f.content)
  }

  predicate Changed(s: State) { StampOf(s.disk) != s.seen }

  /** A write always shows a stamp no earlier write showed. */
  predicate Enabled(s: State, a: Action) {
    match a
    case Write(_, stamp) => stamp !in s.wrote
    case Remove => s.disk.Some?
    case Poll => s.phase.Idle?
    case Hangup => s.phase.Idle?
    case TakeStamp => s.phase.Called?
    case Load => s.phase.Stamped?
    case Mark => s.phase.Loaded?
    case StoreScopes => s.phase.Marked?
    case ApplyUpstreams => s.phase.ScopesStored?
    case StoreEndpoints => s.phase.UpstreamsApplied?
  }

  function Apply(parse: Parser, s: State, a: Action): State
    requires Enabled(s, a)
  {
    match a
    case Write(content, stamp) => s.(disk := Some(File(content, stamp)), wrote := s.wrote[stamp := content])
    case Remove => s.(disk := None)
    case Poll => if Changed(s) then s.(phase := Called) else s
    case Hangup => s.(phase := Called)
    case TakeStamp => s.(phase := Stamped(StampOf(s.disk)))
    case Load => s.(phase := Loaded(s.phase.stamp, ContentOf(s.disk)), readings := s.readings + [ContentOf(s.disk)])
    case Mark =>
      var config := parse(s.phase.content);
      s.(seen := s.phase.stamp, phase := if config.Some? then Marked(config.value) else Idle)
    case StoreScopes => s.(phase := ScopesStored(s.phase.config), scopes := Live(s.phase.config, s.scopes.version + 1))
    case ApplyUpstreams =>
      s.(phase := UpstreamsApplied(s.phase.config),
         upstreams := Live(s.phase.config, s.upstreams.version + 1))
    case StoreEndpoints => s.(phase := Idle, endpoints := Live(s.phase.config, s.endpoints.version + 1))
  }

  /** The config of the last read that parsed. */
  function LastGood(parse: Parser, start: Config, readings: seq<Option<string>>): Config {
    if readings == [] then start
    else
      var config := parse(readings[|readings| - 1]);
      if config.Some? then config.value else LastGood(parse, start, readings[..|readings| - 1])
  }

  predicate Start(s: State, start: Config) {
    && s.seen == None && s.phase == Idle && s.readings == []
    && s.scopes == s.upstreams == s.endpoints == Live(start, 0)
    && s.wrote == match s.disk case None => map[] case Some(f) => map[f.stamp := f.content]
  }

  // ---- the invariant ----

  predicate StampsKnown(s: State) {
    && (s.disk.Some? ==> s.disk.value.stamp in s.wrote && s.wrote[s.disk.value.stamp] == s.disk.value.content)
    && (s.seen.Some? ==> s.seen.value in s.wrote)
    && (s.phase.Stamped? || s.phase.Loaded? ==> (s.phase.stamp.Some? ==> s.phase.stamp.value in s.wrote))
  }

  /** While the file shows `stamp`, `read` is what it holds. */
  predicate StillThere(s: State, stamp: Option<nat>, read: Option<string>) {
    stamp.Some? && StampOf(s.disk) == stamp ==> read == ContentOf(s.disk)
  }

  predicate ReadsMatch(s: State) {
    if s.phase.Loaded? then
      s.readings != [] && s.phase.content == s.readings[|s.readings| - 1]
      && StillThere(s, s.phase.stamp, s.phase.content)
    else
      s.seen.Some? ==> s.readings != [] && StillThere(s, s.seen, s.readings[|s.readings| - 1])
  }

  ghost predicate Published(parse: Parser, start: Config, s: State) {
    var good := LastGood(parse, start, s.readings);
    var before :=
      if s.phase.Loaded? && s.readings != [] then LastGood(parse, start, s.readings[..|s.readings| - 1]) else good;
    match s.phase
    case Marked(config) =>
      config == good && s.scopes.config == s.upstreams.config == s.endpoints.config
      && s.scopes.version == s.upstreams.version == s.endpoints.version
    case ScopesStored(config) =>
      config == good == s.scopes.config && s.upstreams.config == s.endpoints.config
      && s.scopes.version == s.upstreams.version + 1 && s.upstreams.version == s.endpoints.version
    case UpstreamsApplied(config) =>
      config == good == s.scopes.config == s.upstreams.config
      && s.scopes.version == s.upstreams.version == s.endpoints.version + 1
    case _ =>
      s.scopes.config == s.upstreams.config == s.endpoints.config == before
      && s.scopes.version == s.upstreams.version == s.endpoints.version
  }

  ghost predicate Inv(parse: Parser, start: Config, s: State) {
    StampsKnown(s) && ReadsMatch(s) && (s.phase.Loaded? ==> s.readings != []) && Published(parse, start, s)
  }

  lemma StepKeeps(parse: Parser, start: Config, s: State, a: Action)
    requires Inv(parse, start, s) && Enabled(s, a)
    ensures Inv(parse, start, Apply(parse, s, a))
  {
    if a.Load? {
      assert (s.readings + [ContentOf(s.disk)])[..|s.readings|] == s.readings;
    }
  }

  ghost predicate Steps(parse: Parser, s: State, run: seq<Action>, t: State)
    decreases |run|
  {
    if run == [] then s == t
    else Enabled(s, run[0]) && Steps(parse, Apply(parse, s, run[0]), run[1..], t)
  }

  ghost predicate Reachable(parse: Parser, start: Config, t: State) {
    exists s, run :: Start(s, start) && Steps(parse, s, run, t)
  }

  lemma {:induction false} RunKeeps(parse: Parser, start: Config, s: State, run: seq<Action>, t: State)
    requires Inv(parse, start, s) && Steps(parse, s, run, t)
    ensures Inv(parse, start, t)
    decreases |run|
  {
    if run != [] {
      StepKeeps(parse, start, s, run[0]);
      RunKeeps(parse, start, Apply(parse, s, run[0]), run[1..], t);
    }
  }

  lemma Reached(parse: Parser, start: Config, t: State)
    requires Reachable(parse, start, t)
    ensures Inv(parse, start, t)
  {
    var s, run :| Start(s, start) && Steps(parse, s, run, t);
    RunKeeps(parse, start, s, run, t);
  }

  // ---- no edit is missed ----

  /** Wherever writes fall between the steps of a reload: while there is a file and it does not
      look changed, what was read last is what it holds. */
  lemma NoEditIsMissed(parse: Parser, start: Config, s: State)
    requires Reachable(parse, start, s) && s.phase.Idle?
    requires !Changed(s) && s.disk.Some?
    ensures s.readings != [] && s.readings[|s.readings| - 1] == Some(s.disk.value.content)
  {
    Reached(parse, start, s);
  }

  predicate Edits(run: seq<Action>) {
    forall i :: 0 <= i < |run| ==> run[i].Write? || run[i].Remove?
  }

  /** Whatever else happens, a run in which no reload looks at the file again keeps the stamp and
      the last reading. */
  lemma {:induction false} NoNewLook(parse: Parser, s: State, run: seq<Action>, t: State)
    requires Steps(parse, s, run, t) && !s.phase.Stamped? && !s.phase.Loaded?
    requires forall i :: 0 <= i < |run| ==> !run[i].TakeStamp?
    ensures t.seen == s.seen && t.readings == s.readings && !t.phase.Stamped? && !t.phase.Loaded?
    decreases |run|
  {
    if run != [] {
      NoNewLook(parse, Apply(parse, s, run[0]), run[1..], t);
    }
  }

  lemma {:induction false} EditsOnly(parse: Parser, s: State, run: seq<Action>, t: State)
    requires Steps(parse, s, run, t) && Edits(run)
    ensures t == s.(disk := t.disk, wrote := t.wrote)
    decreases |run|
  {
    if run != [] {
      EditsOnly(parse, Apply(parse, s, run[0]), run[1..], t);
    }
  }

  lemma AfterLook(parse: Parser, x: State, upto: seq<Action>, y: State)
    requires x.phase.Called? && Edits(upto) && Steps(parse, Apply(parse, x, TakeStamp), upto, y)
    ensures y == x.(phase := Stamped(StampOf(x.disk)), disk := y.disk, wrote := y.wrote)
  {
    EditsOnly(parse, Apply(parse, x, TakeStamp), upto, y);
  }

  lemma AfterRead(parse: Parser, y: State, since: seq<Action>, z: State)
    requires y.phase.Stamped? && Edits(since) && Steps(parse, Apply(parse, y, Load), since, z)
    ensures z == y.(phase := Loaded(y.phase.stamp, ContentOf(y.disk)), readings := y.readings + [ContentOf(y.disk)],
                    disk := z.disk, wrote := z.wrote)
  {
    EditsOnly(parse, Apply(parse, y, Load), since, z);
  }

  lemma AfterMark(parse: Parser, z: State, later: seq<Action>, t: State)
    requires z.phase.Loaded? && Steps(parse, Apply(parse, z, Mark), later, t)
    requires forall i :: 0 <= i < |later| ==> !later[i].TakeStamp?
    ensures t.seen == z.phase.stamp && t.readings == z.readings && !t.phase.Loaded?
  {
    NoNewLook(parse, Apply(parse, z, Mark), later, t);
  }

  lemma InvAfterReload(parse: Parser, start: Config, x: State, upto: seq<Action>, y: State,
                       since: seq<Action>, z: State, later: seq<Action>, t: State)
    requires Inv(parse, start, x) && x.phase.Called?
    requires Steps(parse, Apply(parse, x, TakeStamp), upto, y)
    requires y.phase.Stamped? && Steps(parse, Apply(parse, y, Load), since, z)
    requires z.phase.Loaded? && Steps(parse, Apply(parse, z, Mark), later, t)
    ensures Inv(parse, start, t)
  {
    StepKeeps(parse, start, x, TakeStamp);
    RunKeeps(parse, start, Apply(parse, x, TakeStamp), upto, y);
    StepKeeps(parse, start, y, Load);
    RunKeeps(parse, start, Apply(parse, y, Load), since, z);
    StepKeeps(parse, start, z, Mark);
    RunKeeps(parse, start, Apply(parse, z, Mark), later, t);
  }

  lemma AtRest(parse: Parser, start: Config, t: State, looked: Option<File>, read: Option<File>)
    requires Inv(parse, start, t) && !t.phase.Loaded? && !Changed(t)
    requires t.seen == StampOf(looked) && t.readings != [] && t.readings[|t.readings| - 1] == ContentOf(read)
    ensures ContentOf(read) == ContentOf(t.disk) <==> !(looked.None? && read.Some?)
  {
  }

  /** One reload among any edits: the file is looked at in `x`, read in `y` and the look recorded
      in `z`; `t` is any state after that and before the next look. While the file does not look
      changed there, what was read is what it holds, except exactly when it was missing at the
      look and there to be read. */
  lemma LastReadIsOnDisk(parse: Parser, start: Config, x: State, upto: seq<Action>, y: State,
                         since: seq<Action>, z: State, later: seq<Action>, t: State)
    requires Inv(parse, start, x) && x.phase.Called?
    requires Edits(upto) && Steps(parse, Apply(parse, x, TakeStamp), upto, y)
    requires y.phase.Stamped? && Edits(since) && Steps(parse, Apply(parse, y, Load), since, z)
    requires z.phase.Loaded? && Steps(parse, Apply(parse, z, Mark), later, t)
    requires forall i :: 0 <= i < |later| ==> !later[i].TakeStamp?
    requires !Changed(t)
    ensures t.readings != []
    ensures t.readings[|t.readings| - 1] == ContentOf(t.disk) <==> !(x.disk.None? && y.disk.Some?)
  {
    AfterLook(parse, x, upto, y);
    AfterRead(parse, y, since, z);
    AfterMark(parse, z, later, t);
    InvAfterReload(parse, start, x, upto, y, since, z, later, t);
    AtRest(parse, start, t, x.disk, y.disk);
  }

  /** What a file leaves that was there only while it was read: every state between two polls
      with no file has a run to one that looks just as settled, with no file either, and publishes
      `content`. */
  lemma AMissingFileCanBeMistaken(parse: Parser, s: State, content: string, stamp: nat)
    returns (run: seq<Action>, t: State)
    requires s.phase.Idle? && s.disk.None? && stamp !in s.wrote
    ensures Steps(parse, s, run, t) && t.phase.Idle? && !Changed(t) && t.disk == None
    ensures t.readings == s.readings + [Some(content)]
    ensures var config := parse(Some(content));
            config.Some? ==> t.scopes.config == t.upstreams.config == t.endpoints.config == config.value
  {
    var s1 := s.(phase := Called);
    var s2 := s1.(phase := Stamped(None));
    var s3 := s2.(disk := Some(File(content, stamp)), wrote := s.wrote[stamp := content]);
    var s4 := s3.(phase := Loaded(None, Some(content)), readings := s.readings + [Some(content)]);
    var s5 := Apply(parse, s4, Mark);
    var s6 := s5.(disk := None);
    run, t := Publications(parse, s6);
    run := Prepend(parse, s5, Remove, run, t);
    run := Prepend(parse, s4, Mark, run, t);
    run := Prepend(parse, s3, Load, run, t);
    run := Prepend(parse, s2, Write(content, stamp), run, t);
    run := Prepend(parse, s1, TakeStamp, run, t);
    run := Prepend(parse, s, Hangup, run, t);
  }

  /** The publications of a good config, or nothing after a bad one. */
  lemma Publications(parse: Parser, s: State) returns (run: seq<Action>, t: State)
    requires s.phase.Marked? || s.phase.Idle?
    ensures Steps(parse, s, run, t) && t.phase.Idle?
    ensures t.disk == s.disk && t.seen == s.seen && t.readings == s.readings && t.wrote == s.wrote
    ensures s.phase.Marked? ==> t.scopes.config == t.upstreams.config == t.endpoints.config == s.phase.config
  {
    run, t := [], s;
    if s.phase.Marked? {
      var s1 := Apply(parse, s, StoreScopes);
      var s2 := Apply(parse, s1, ApplyUpstreams);
      t := Apply(parse, s2, StoreEndpoints);
      run := Prepend(parse, s2, StoreEndpoints, [], t);
      run := Prepend(parse, s1, ApplyUpstreams, run, t);
      run := Prepend(parse, s, StoreScopes, run, t);
    }
  }

  /** Such a settled state is reached from a start without a file. */
  lemma MistakenIsReachable(parse: Parser, start: Config, content: string, config: Config)
    requires parse(Some(content)) == Some(config)
    ensures exists t :: Reachable(parse, start, t) && t.phase.Idle? && !Changed(t) && t.disk == None
                        && t.readings == [Some(content)] && t.upstreams.config == config
  {
    var s := State(None, None, Idle, Live(start, 0), Live(start, 0), Live(start, 0), map[], []);
    assert Start(s, start);
    var run, t := AMissingFileCanBeMistaken(parse, s, content, 0);
    assert Reachable(parse, start, t);
  }

  lemma Prepend(parse: Parser, s: State, a: Action, rest: seq<Action>, t: State) returns (run: seq<Action>)
    requires Enabled(s, a) && Steps(parse, Apply(parse, s, a), rest, t)
    ensures Steps(parse, s, run, t)
  {
    run := [a] + rest;
    assert run[1..] == rest;
  }

  // ---- a config that does not parse ----

  /** Between reloads everything published comes from the last read that parsed: a broken file
      changes nothing. */
  lemma LiveIsTheLastGoodConfig(parse: Parser, start: Config, s: State)
    requires Reachable(parse, start, s) && s.phase.Idle?
    ensures s.scopes.config == s.upstreams.config == s.endpoints.config == LastGood(parse, start, s.readings)
  {
    Reached(parse, start, s);
  }

  lemma {:induction false} EditedForGood(parse: Parser, s: State, run: seq<Action>, t: State, stamp: nat)
    requires Steps(parse, s, run, t) && Edits(run) && stamp in s.wrote
    requires StampOf(s.disk) == Some(stamp) ==> run != []
    ensures StampOf(t.disk) != Some(stamp)
    decreases |run|
  {
    if run != [] {
      EditedForGood(parse, Apply(parse, s, run[0]), run[1..], t, stamp);
    }
  }

  /** A reload of a file that was there, among any edits: it leaves the file looking changed
      exactly if an edit fell after the look, so that edit is not lost; and a content that does
      not parse publishes nothing. */
  lemma ReloadSettles(parse: Parser, start: Config, x: State, upto: seq<Action>, y: State, since: seq<Action>, z: State)
    requires Inv(parse, start, x) && x.phase.Called?
    requires Edits(upto) && Steps(parse, Apply(parse, x, TakeStamp), upto, y)
    requires y.phase.Stamped? && Edits(since) && Steps(parse, Apply(parse, y, Load), since, z)
    requires z.phase.Loaded?
    ensures x.disk.Some? ==> (Changed(Apply(parse, z, Mark)) <==> upto != [] || since != [])
    ensures parse(ContentOf(y.disk)) == None ==>
              var m := Apply(parse, z, Mark);
              m.phase == Idle && m.scopes == x.scopes && m.upstreams == x.upstreams && m.endpoints == x.endpoints
  {
    AfterLook(parse, x, upto, y);
    AfterRead(parse, y, since, z);
    if x.disk.Some? {
      var stamp := x.disk.value.stamp;
      assert stamp in x.wrote;
      StampsStay(parse, Apply(parse, x, TakeStamp), upto, y, stamp);
      if upto != [] { EditedForGood(parse, Apply(parse, x, TakeStamp), upto, y, stamp); }
      if upto != [] || since != [] { EditedForGood(parse, Apply(parse, y, Load), since, z, stamp); }
    }
  }

  lemma {:induction false} StampsStay(parse: Parser, s: State, run: seq<Action>, t: State, stamp: nat)
    requires Steps(parse, s, run, t) && stamp in s.wrote
    ensures stamp in t.wrote
    decreases |run|
  {
    if run != [] {
      StampsStay(parse, Apply(parse, s, run[0]), run[1..], t, stamp);
    }
  }

  predicate Untouched(run: seq<Action>) {
    forall i :: 0 <= i < |run| ==> !run[i].Write? && !run[i].Remove? && !run[i].Hangup?
  }

  /** From then on, until an edit or a hangup, any number of polls reads nothing and changes
      nothing. */
  lemma {:induction false} NotReadAgain(parse: Parser, s: State, run: seq<Action>, t: State)
    requires s.phase.Idle? && !Changed(s) && Untouched(run) && Steps(parse, s, run, t)
    ensures t == s
    decreases |run|
  {
    if run != [] {
      assert run[0].Poll?;
      NotReadAgain(parse, s, run[1..], t);
    }
  }

  /** How many steps of its own the watcher is from rest if nobody touches the file. */
  function Ahead(s: State): nat {
    match s.phase
    case Idle => if Changed(s) then 7 else 0
    case Called => 6
    case Stamped(stamp) => 5 + if stamp == StampOf(s.disk) then 0 else 7
    case Loaded(stamp, _) => 4 + if stamp == StampOf(s.disk) then 0 else 7
    case Marked(_) => 3 + if Changed(s) then 7 else 0
    case ScopesStored(_) => 2 + if Changed(s) then 7 else 0
    case UpstreamsApplied(_) => 1 + if Changed(s) then 7 else 0
  }

  /** From any state, in the middle of a reload or not: once nobody touches the file, every run
      of that many steps brings the watcher to rest. */
  lemma {:induction false} ComesToRest(parse: Parser, s: State, run: seq<Action>, t: State)
    requires Untouched(run) && Steps(parse, s, run, t) && |run| >= Ahead(s)
    ensures t.phase.Idle? && !Changed(t) && t.disk == s.disk
    decreases |run|
  {
    if run != [] {
      ComesToRest(parse, Apply(parse, s, run[0]), run[1..], t);
    }
  }

  /** An edit, even one made in the middle of a reload, is picked up: from any reachable state,
      once nobody touches the file any more, after any twelve steps of the watcher what the file
      holds is what is published, or, if it does not parse, the last config that did. */
  lemma EditIsPickedUp(parse: Parser, start: Config, s: State, run: seq<Action>, t: State)
    requires Reachable(parse, start, s) && s.disk.Some?
    requires Untouched(run) && Steps(parse, s, run, t) && |run| >= 12
    ensures t.phase == Idle && !Changed(t) && t.disk == s.disk
    ensures t.readings != [] && t.readings[|t.readings| - 1] == ContentOf(s.disk)
    ensures t.scopes.config == t.upstreams.config == t.endpoints.config == LastGood(parse, start, t.readings)
    ensures var config := parse(ContentOf(s.disk));
            config.Some? ==> t.scopes.config == t.upstreams.config == t.endpoints.config == config.value
  {
    Reached(parse, start, s);
    ComesToRest(parse, s, run, t);
    RunKeeps(parse, start, s, run, t);
  }

  // ---- the order of publication ----

  /** Whichever of the config's servers the endpoints serve, a request never reaches one whose server
      the manager does not know, except for one the config being applied has just deleted; and no
      endpoint is ahead of its upstreams nor they of the scopes. */
  lemma EndpointsAreKnown(parse: Parser, start: Config, s: State, name: string)
    requires Reachable(parse, start, s) && name in s.endpoints.config.servers
    ensures name in s.upstreams.config.servers
            || (s.phase.UpstreamsApplied? && s.upstreams.config == s.phase.config && name !in s.phase.config.servers)
    ensures s.endpoints.version <= s.upstreams.version <= s.scopes.version <= s.endpoints.version + 1
    ensures s.endpoints.version == s.upstreams.version ==> s.endpoints.config == s.upstreams.config
    ensures s.upstreams.version == s.scopes.version ==> s.upstreams.config == s.scopes.config
  {
    Reached(parse, start, s);
  }
}
