/** The live upstreams: the critical sections of one entry, and the reload that replaces the map
    of them. An entry, and a channel, is known by its identity: entries outlive the map they were
    in, for whoever still holds one. */
module Upstreams {
  import opened Common
  import opened Text
  import opened Servers
  import opened SlotProtocol
  import opened Relay
  import Budget
  import Sync

  /** One upstream. The channel is where its list-changed notifications are published. */
  datatype Upstream = Upstream(server: Server, retired: bool, slot: Slot, deadline: Option<int>, channel: nat)

  /** An entry nobody has used. */
  function NewUpstream(server: Server, channel: nat): Upstream {
    Upstream(server, false, Idle, None, channel)
  }

  function RetiredUpstream(u: Upstream): Upstream { u.(retired := true, slot := Idle) }

  /** What every session is owed when the server behind a name was replaced. */
  function News(): seq<Family> { [Tools, Resources, Prompts] }

  datatype Refusal = Unknown | Disabled | Unavailable

  // ---- what a reload does to the names ----

  type Configs = map<string, Server>

  function AddedNames(before: Configs, servers: Configs): set<string> { servers.Keys - before.Keys }

  function RemovedNames(before: Configs, servers: Configs): set<string> { before.Keys - servers.Keys }

  function ReplacedNames(before: Configs, servers: Configs): set<string> {
    set n | n in before.Keys && n in servers && before[n].transport != servers[n].transport
  }

  function StoppedNames(before: Configs, servers: Configs): set<string> {
    set n | n in before.Keys && n in servers && before[n].transport == servers[n].transport
            && before[n].enabled && !servers[n].enabled
  }

  function RetiringNames(before: Configs, servers: Configs): set<string> {
    RemovedNames(before, servers) + ReplacedNames(before, servers) + StoppedNames(before, servers)
  }

  /** Whether a name keeps its entry. */
  predicate Kept(before: Configs, servers: Configs, n: string) {
    n in before && n in servers && before[n].transport == servers[n].transport
  }

  /** The four kinds are disjoint, and a name in none of them has its entry before and after,
      with the transport it had, and was not switched off. */
  lemma KindsOfChange(before: Configs, servers: Configs, n: string)
    requires n in before || n in servers
    ensures Sync.One(n in AddedNames(before, servers)) + Sync.One(n in RemovedNames(before, servers))
            + Sync.One(n in ReplacedNames(before, servers)) + Sync.One(n in StoppedNames(before, servers))
            + Sync.One(Kept(before, servers, n) && (before[n].enabled ==> servers[n].enabled)) == 1
  {
  }

  datatype Changes = Changes(added: seq<string>, replaced: seq<string>, removed: seq<string>, stopped: seq<string>)

  /** What the first loop decides about one name. */
  datatype Fate = Gained | Unchanged | Edited | SwitchedOff | Swapped

  function FateOf(existing: Option<Server>, server: Server): Fate {
    if existing.None? then Gained
    else if existing.value == server then Unchanged
    else if existing.value.transport != server.transport then Swapped
    else if existing.value.enabled && !server.enabled then SwitchedOff
    else Edited
  }

  /** What has been noted so far: what to report, and which entries to retire. */
  datatype Notes = Notes(changes: Changes, retire: seq<string>)

  function Noted(notes: Notes, name: string, fate: Fate): Notes {
    var c := notes.changes;
    match fate
    case Gained => notes.(changes := c.(added := c.added + [name]))
    case Swapped => Notes(c.(replaced := c.replaced + [name]), notes.retire + [name])
    case SwitchedOff => Notes(c.(stopped := c.stopped + [name]), notes.retire + [name])
    case _ => notes
  }

  ghost predicate NotedUpto(notes: Notes, names: seq<string>, i: nat, before: Configs, servers: Configs)
    requires i <= |names|
  {
    && Sync.Visited(notes.changes.added, names, i, AddedNames(before, servers))
    && Sync.Visited(notes.changes.replaced, names, i, ReplacedNames(before, servers))
    && Sync.Visited(notes.changes.stopped, names, i, StoppedNames(before, servers))
    && Sync.Visited(notes.retire, names, i, ReplacedNames(before, servers) + StoppedNames(before, servers))
    && notes.changes.removed == []
  }

  lemma NotedStep(notes: Notes, names: seq<string>, i: nat, before: Configs, servers: Configs)
    requires Sorted(names) && i < |names| && names[i] in servers && NotedUpto(notes, names, i, before, servers)
    ensures var n := names[i];
            var fate := FateOf(if n in before then Some(before[n]) else None, servers[n]);
            NotedUpto(Noted(notes, n, fate), names, i + 1, before, servers)
  {
    Sync.UptoStep(names, i, AddedNames(before, servers), notes.changes.added);
    Sync.UptoStep(names, i, ReplacedNames(before, servers), notes.changes.replaced);
    Sync.UptoStep(names, i, StoppedNames(before, servers), notes.changes.stopped);
    Sync.UptoStep(names, i, ReplacedNames(before, servers) + StoppedNames(before, servers), notes.retire);
  }

  lemma NotedAll(notes: Notes, names: seq<string>, before: Configs, servers: Configs)
    requires (forall n :: n in names <==> n in servers) && NotedUpto(notes, names, |names|, before, servers)
    ensures Sync.IsList(notes.changes.added, AddedNames(before, servers))
    ensures Sync.IsList(notes.changes.replaced, ReplacedNames(before, servers))
    ensures Sync.IsList(notes.changes.stopped, StoppedNames(before, servers))
    ensures Sync.IsList(notes.retire, ReplacedNames(before, servers) + StoppedNames(before, servers))
  {
    Sync.UptoAll(names, AddedNames(before, servers), notes.changes.added);
    Sync.UptoAll(names, ReplacedNames(before, servers), notes.changes.replaced);
    Sync.UptoAll(names, StoppedNames(before, servers), notes.changes.stopped);
    Sync.UptoAll(names, ReplacedNames(before, servers) + StoppedNames(before, servers), notes.retire);
  }

  // ---- what a reload does to the entries ----

  /** Every entry and every channel there has been, by identity, and the name each was made for. */
  datatype World = World(entries: seq<Upstream>, channels: seq<seq<Family>>, madeFor: seq<string>,
                         openedFor: seq<string>)

  /** What a name holds was made for it, so no two names share an entry or a channel. */
  predicate Owned(w: World, n: string, id: nat) {
    && |w.madeFor| == |w.entries| && |w.openedFor| == |w.channels|
    && id < |w.entries| && w.madeFor[id] == n
    && w.entries[id].channel < |w.channels| && w.openedFor[w.entries[id].channel] == n
  }

  ghost predicate Sound(w: World, m: map<string, nat>) {
    && |w.madeFor| == |w.entries| && |w.openedFor| == |w.channels|
    && forall n :: n in m ==> Owned(w, n, m[n])
  }

  function Configured(w: World, m: map<string, nat>): Configs
    requires Sound(w, m)
  {
    map n | n in m :: assert Owned(w, n, m[n]); w.entries[m[n]].server
  }

  /** No two names share anything. */
  lemma OwnNameOnly(w: World, m: map<string, nat>, a: string, b: string)
    requires Sound(w, m) && a in m && b in m && a != b
    ensures m[a] != m[b] && w.entries[m[a]].channel != w.entries[m[b]].channel
  {
    assert Owned(w, a, m[a]) && Owned(w, b, m[b]);
  }

  /** Same transport: the same entry, with its budget and its channel, and its slot unless the
      reload just stopped it. `u` and `log` are what it was, `id` and `channels` what it is. */
  predicate KeptAs(u: Upstream, log: seq<Family>, stopped: bool, server: Server, now: Upstream, logNow: seq<Family>) {
    now == (if stopped then RetiredUpstream(u.(server := server)) else u.(server := server)) && logNow == log
  }

  /** Another transport: the old entry is retired, and a new one is on its channel, which is told. */
  predicate ReplacedAs(u: Upstream, log: seq<Family>, server: Server, oldNow: Upstream, now: Upstream,
                       logNow: seq<Family>)
  {
    oldNow == RetiredUpstream(u) && now == NewUpstream(server, u.channel) && logNow == log + News()
  }

  /** What a reload leaves under one name: `w` and `m` are the state and the map it found, `v` and
      `next` those it leaves. */
  ghost predicate ReloadedAt(w: World, m: map<string, nat>, servers: Configs, v: World, next: map<string, nat>,
                             n: string)
    requires Sound(w, m) && Sound(v, next)
  {
    var before := Configured(w, m);
    && (n in next <==> n in servers)
    && |w.entries| <= |v.entries| && |w.channels| <= |v.channels|
    && (n in m ==> Owned(w, n, m[n])) && (n in next ==> Owned(v, n, next[n]))
    && if n in m then
         var u := w.entries[m[n]];
         var log, logNow := w.channels[u.channel], v.channels[u.channel];
         if Kept(before, servers, n) then
           next[n] == m[n] && KeptAs(u, log, n in StoppedNames(before, servers), servers[n], v.entries[m[n]], logNow)
         else if n in servers then
           next[n] >= |w.entries| && ReplacedAs(u, log, servers[n], v.entries[m[n]], v.entries[next[n]], logNow)
         else
           v.entries[m[n]] == RetiredUpstream(u) && logNow == log
       else n in servers ==>
         var now := v.entries[next[n]];
         next[n] >= |w.entries| && now.channel >= |w.channels|
         && now == NewUpstream(servers[n], now.channel) && v.channels[now.channel] == []
  }

  /** A reload, name by name; whatever was out of the map before stays as it was. */
  ghost predicate Reloaded(w: World, m: map<string, nat>, servers: Configs, v: World, next: map<string, nat>)
    requires Sound(w, m)
  {
    && Sound(v, next)
    && (forall n :: ReloadedAt(w, m, servers, v, next, n))
    && |w.entries| <= |v.entries|
    && forall id :: 0 <= id < |w.entries| && id !in m.Values ==> v.entries[id] == w.entries[id]
  }

  /** The entry placed under a name by the first loop: the old one with the new server, a new one
      on the old channel, or all new. */
  predicate Placed(w: World, m: map<string, nat>, servers: Configs, v: World, n: string, id: nat)
    requires Sound(w, m)
  {
    && n in servers && Owned(v, n, id)
    && (n in m ==> Owned(w, n, m[n]))
    && (if n in m && w.entries[m[n]].server.transport == servers[n].transport then
          id == m[n] && v.entries[id] == w.entries[m[n]].(server := servers[n])
        else if n in m then
          id >= |w.entries| && v.entries[id] == NewUpstream(servers[n], w.entries[m[n]].channel)
        else
          id >= |w.entries| && v.entries[id].channel >= |w.channels|
          && v.entries[id] == NewUpstream(servers[n], v.entries[id].channel) && v.channels[v.entries[id].channel] == [])
  }

  /** What was there when the reload began and was not placed as it is stays untouched. */
  ghost predicate Untouched(w: World, m: map<string, nat>, v: World, next: map<string, nat>)
    requires Sound(w, m)
  {
    && w.channels <= v.channels && w.openedFor <= v.openedFor && w.madeFor <= v.madeFor
    && |v.madeFor| == |v.entries| && |v.openedFor| == |v.channels|
    && (forall n :: n in m && (n in next ==> next[n] != m[n]) ==>
        m[n] < |v.entries| && v.entries[m[n]] == w.entries[m[n]])
    && (forall id :: 0 <= id < |w.entries| && id !in m.Values ==> v.entries[id] == w.entries[id])
  }

  ghost predicate AllPlaced(w: World, m: map<string, nat>, servers: Configs, v: World, next: map<string, nat>)
    requires Sound(w, m)
  {
    forall n :: n in next ==> Placed(w, m, servers, v, n, next[n])
  }

  ghost predicate FirstLoop(w: World, m: map<string, nat>, servers: Configs, v: World, next: map<string, nat>) {
    Sound(w, m) && Untouched(w, m, v, next) && AllPlaced(w, m, servers, v, next)
  }

  function FateIn(w: World, m: map<string, nat>, n: string, server: Server): Fate
    requires n in m ==> m[n] < |w.entries|
  {
    FateOf(if n in m then Some(w.entries[m[n]].server) else None, server)
  }

  /** One name placed: an old entry edited, or a new one made. */
  function Place(v: World, m: map<string, nat>, n: string, server: Server): (World, nat)
    requires n in m ==> Owned(v, n, m[n])
  {
    match FateIn(v, m, n, server)
    case Gained =>
      (World(v.entries + [NewUpstream(server, |v.channels|)], v.channels + [[]], v.madeFor + [n], v.openedFor + [n]),
       |v.entries|)
    case Swapped =>
      (v.(entries := v.entries + [NewUpstream(server, v.entries[m[n]].channel)], madeFor := v.madeFor + [n]),
       |v.entries|)
    case _ =>
      (v.(entries := v.entries[m[n] := v.entries[m[n]].(server := server)]), m[n])
  }

  lemma StillThere(w: World, m: map<string, nat>, v: World, next: map<string, nat>, n: string)
    requires Sound(w, m) && Untouched(w, m, v, next) && n in m && n !in next
    ensures Owned(w, n, m[n]) && Owned(v, n, m[n]) && v.entries[m[n]] == w.entries[m[n]]
  {
    assert Owned(w, n, m[n]);
    assert v.madeFor[m[n]] == w.madeFor[m[n]];
    var c := w.entries[m[n]].channel;
    assert v.openedFor[c] == w.openedFor[c];
  }

  lemma PlaceThis(w: World, m: map<string, nat>, servers: Configs, v: World, next: map<string, nat>, n: string)
    requires Sound(w, m) && Untouched(w, m, v, next) && n in servers && n !in next
    requires n in m ==> Owned(w, n, m[n]) && Owned(v, n, m[n]) && v.entries[m[n]] == w.entries[m[n]]
    ensures var (v', id) := Place(v, m, n, servers[n]);
            Placed(w, m, servers, v', n, id)
  {
  }

  lemma PlaceOther(w: World, m: map<string, nat>, servers: Configs, v: World, next: map<string, nat>, n: string,
                   k: string, id: nat)
    requires Sound(w, m) && |v.madeFor| == |v.entries| && |v.openedFor| == |v.channels|
    requires n in servers && k != n && (n in m ==> Owned(v, n, m[n]))
    requires Placed(w, m, servers, v, k, id)
    ensures Placed(w, m, servers, Place(v, m, n, servers[n]).0, k, id)
  {
    if n in m { assert id != m[n]; }
  }

  lemma PlaceLeaves(w: World, m: map<string, nat>, servers: Configs, v: World, next: map<string, nat>, n: string)
    requires Sound(w, m) && Untouched(w, m, v, next) && n in servers && n !in next && (n in m ==> Owned(v, n, m[n]))
    ensures var (v', id) := Place(v, m, n, servers[n]);
            Untouched(w, m, v', next[n := id])
  {
    var (v', id) := Place(v, m, n, servers[n]);
    forall k | k in m && (k in next[n := id] ==> next[n := id][k] != m[k])
      ensures m[k] < |v'.entries| && v'.entries[m[k]] == w.entries[m[k]]
    {
      if n in m && k != n { OwnNameOnly(w, m, k, n); }
    }
  }

  /** Placing the next name keeps everything placed before it. */
  lemma PlaceKeeps(w: World, m: map<string, nat>, servers: Configs, v: World, next: map<string, nat>, n: string)
    requires FirstLoop(w, m, servers, v, next) && n in servers && n !in next
    ensures n in m ==> Owned(v, n, m[n]) && v.entries[m[n]] == w.entries[m[n]]
    ensures var (v', id) := Place(v, m, n, servers[n]);
            FirstLoop(w, m, servers, v', next[n := id])
  {
    if n in m { StillThere(w, m, v, next, n); }
    var (v', id) := Place(v, m, n, servers[n]);
    PlaceThis(w, m, servers, v, next, n);
    PlaceLeaves(w, m, servers, v, next, n);
    forall k | k in next ensures Placed(w, m, servers, v', k, next[k]) {
      assert Placed(w, m, servers, v, k, next[k]);
      PlaceOther(w, m, servers, v, next, n, k, next[k]);
    }
  }

  // ---- retirements and news ----

  /** Whether `id` is the entry one of `names` had. */
  predicate Among(m: map<string, nat>, names: seq<string>, madeFor: seq<string>, id: nat) {
    id < |madeFor| && madeFor[id] in names && madeFor[id] in m && m[madeFor[id]] == id
  }

  ghost predicate RetiredUpto(v: World, m: map<string, nat>, names: seq<string>, entries: seq<Upstream>) {
    && |entries| == |v.entries|
    && forall id :: 0 <= id < |entries| ==>
         entries[id] == if Among(m, names, v.madeFor, id) then RetiredUpstream(v.entries[id]) else v.entries[id]
  }

  /** Whether `c` is the channel of the entry one of `names` had. */
  predicate Heard(v: World, m: map<string, nat>, names: seq<string>, c: nat) {
    && c < |v.openedFor| && v.openedFor[c] in names && v.openedFor[c] in m
    && m[v.openedFor[c]] < |v.entries| && v.entries[m[v.openedFor[c]]].channel == c
  }

  ghost predicate ToldUpto(v: World, m: map<string, nat>, names: seq<string>, channels: seq<seq<Family>>) {
    && |channels| == |v.channels|
    && forall c :: 0 <= c < |channels| ==> channels[c] == v.channels[c] + if Heard(v, m, names, c) then News() else []
  }

  /** The world after everything the reload does. */
  lemma ReloadDone(w: World, m: map<string, nat>, servers: Configs, v: World, next: map<string, nat>,
                   retire: seq<string>, announce: seq<string>, z: World)
    requires FirstLoop(w, m, servers, v, next) && next.Keys == servers.Keys
    requires forall n :: n in retire <==> n in RetiringNames(Configured(w, m), servers)
    requires forall n :: n in announce <==> n in ReplacedNames(Configured(w, m), servers)
    requires z.madeFor == v.madeFor && z.openedFor == v.openedFor
    requires RetiredUpto(v, m, retire, z.entries) && ToldUpto(v, m, announce, z.channels)
    ensures Reloaded(w, m, servers, z, next)
  {
    forall n | n in next ensures Owned(z, n, next[n]) {
      assert Placed(w, m, servers, v, n, next[n]);
    }
    forall n ensures ReloadedAt(w, m, servers, z, next, n) {
      ReloadDoneAt(w, m, servers, v, next, retire, announce, z, n);
    }
    forall id | 0 <= id < |w.entries| && id !in m.Values ensures z.entries[id] == w.entries[id] {
      assert Among(m, retire, v.madeFor, id) ==> id in m.Values;
    }
  }

  /** What became of the entry and the channel a name had. */
  lemma OldEntryAt(w: World, m: map<string, nat>, servers: Configs, v: World, next: map<string, nat>,
                   retire: seq<string>, announce: seq<string>, z: World, n: string)
    requires Sound(w, m) && Untouched(w, m, v, next) && n in m
    requires n in next ==> Placed(w, m, servers, v, n, next[n])
    requires RetiredUpto(v, m, retire, z.entries) && ToldUpto(v, m, announce, z.channels)
    ensures Owned(w, n, m[n]) && m[n] < |v.entries| && m[n] < |z.entries| && w.entries[m[n]].channel < |z.channels|
    ensures z.entries[m[n]] == if n in retire then RetiredUpstream(v.entries[m[n]]) else v.entries[m[n]]
    ensures (n in next && next[n] == m[n]) || v.entries[m[n]] == w.entries[m[n]]
    ensures z.channels[w.entries[m[n]].channel]
            == w.channels[w.entries[m[n]].channel] + if n in announce then News() else []
  {
    assert Owned(w, n, m[n]);
    var c := w.entries[m[n]].channel;
    assert v.madeFor[m[n]] == n && v.openedFor[c] == n && v.channels[c] == w.channels[c];
  }

  /** A new entry is as the first loop made it, and a new channel is silent. */
  lemma NewEntryAt(w: World, m: map<string, nat>, servers: Configs, v: World, next: map<string, nat>,
                   retire: seq<string>, announce: seq<string>, z: World, n: string)
    requires Sound(w, m) && n in next && Placed(w, m, servers, v, n, next[n])
    requires n in m ==> next[n] != m[n]
    requires RetiredUpto(v, m, retire, z.entries) && ToldUpto(v, m, announce, z.channels)
    ensures next[n] < |z.entries| && z.entries[next[n]] == v.entries[next[n]]
    ensures n !in m ==> v.entries[next[n]].channel < |z.channels| && z.channels[v.entries[next[n]].channel] == []
  {
    assert v.madeFor[next[n]] == n;
    if n !in m {
      assert v.openedFor[v.entries[next[n]].channel] == n;
      assert v.channels[v.entries[next[n]].channel] + [] == [];
    }
  }

  lemma ReloadDoneAt(w: World, m: map<string, nat>, servers: Configs, v: World, next: map<string, nat>,
                     retire: seq<string>, announce: seq<string>, z: World, n: string)
    requires Sound(w, m) && Sound(z, next) && Untouched(w, m, v, next) && next.Keys == servers.Keys
    requires n in next ==> Placed(w, m, servers, v, n, next[n])
    requires n in retire <==> n in RetiringNames(Configured(w, m), servers)
    requires n in announce <==> n in ReplacedNames(Configured(w, m), servers)
    requires RetiredUpto(v, m, retire, z.entries) && ToldUpto(v, m, announce, z.channels)
    ensures ReloadedAt(w, m, servers, z, next, n)
  {
    if n in m {
      OldEntryAt(w, m, servers, v, next, retire, announce, z, n);
      var log := w.channels[w.entries[m[n]].channel];
      assert log + [] == log;
    }
    if n in next {
      assert Owned(z, n, next[n]);
      if n in m ==> next[n] != m[n] { NewEntryAt(w, m, servers, v, next, retire, announce, z, n); }
    }
  }

  /** What a demand, a landing, a failed request or a charge may do: nothing but the slot and the
      deadline of an entry changes. */
  ghost predicate Used(w: World, v: World) {
    && |v.entries| == |w.entries| && v == w.(entries := v.entries)
    && forall id :: 0 <= id < |w.entries| ==>
         v.entries[id] == w.entries[id].(slot := v.entries[id].slot, deadline := v.entries[id].deadline)
  }

  // ---- the manager ----

  class UpstreamManager {
    var entries: seq<Upstream>
    var channels: seq<seq<Family>>
    var upstreams: map<string, nat>     // the entry each name is served by
    ghost var madeFor: seq<string>
    ghost var openedFor: seq<string>

    ghost function Now(): World
      reads this
    {
      World(entries, channels, madeFor, openedFor)
    }

    ghost predicate Valid()
      reads this
    {
      Sound(Now(), upstreams)
    }

    constructor ()
      ensures Valid() && upstreams == map[]
    {
      entries, channels, upstreams, madeFor, openedFor := [], [], map[], [], [];
    }

    /** One look of `ready` at an entry, with its lock held: the claim it makes is the one the
        slot protocol makes. The caller may hold an entry that has left the map. */
    method Demand(id: nat, live: set<nat>, dead: set<nat>, unused: nat) returns (r: Result<Verdict, Refusal>)
      requires id < |entries|
      modifies this`entries
      ensures var u := old(entries)[id];
              if !u.server.enabled then r == Err(Disabled) && entries == old(entries)
              else if u.retired then r == Err(Unavailable) && entries == old(entries)
              else var (slot, verdict) := LookAt(u.slot, live, dead, unused);
                   r == Ok(verdict) && entries == old(entries)[id := u.(slot := slot)]
      ensures Used(old(Now()), Now())
    {
      var u := entries[id];
      if !u.server.enabled { return Err(Disabled); }
      if u.retired { return Err(Unavailable); }
      match u.slot
      case Ready(service) =>
        if service !in dead {
          assert entries == entries[id := u.(slot := u.slot)];
          return Ok(Take(service));
        }
        entries := entries[id := u.(slot := Connecting(unused))];
        r := Ok(Own(unused, ATTEMPTS));
      case Connecting(claim) =>
        if claim in live {
          assert entries == entries[id := u.(slot := u.slot)];
          return Ok(Wait(claim));
        }
        entries := entries[id := u.(slot := Connecting(unused))];
        r := Ok(Own(unused, ATTEMPTS));
      case Idle =>
        entries := entries[id := u.(slot := Connecting(unused))];
        r := Ok(Own(unused, ATTEMPTS));
      case Failed =>
        entries := entries[id := u.(slot := Connecting(unused))];
        r := Ok(Own(unused, 1));
      case AuthRequired =>
        entries := entries[id := u.(slot := Connecting(unused))];
        r := Ok(Own(unused, 1));
    }

    /** A demand by name. */
    method Ready(name: string, live: set<nat>, dead: set<nat>, unused: nat) returns (r: Result<Verdict, Refusal>)
      requires Valid()
      modifies this`entries
      ensures name !in upstreams ==> r == Err(Unknown) && entries == old(entries)
      ensures name in upstreams ==>
                var id := upstreams[name];
                var u := old(entries)[id];
                if !u.server.enabled then r == Err(Disabled) && entries == old(entries)
                else if u.retired then r == Err(Unavailable) && entries == old(entries)
                else var (slot, verdict) := LookAt(u.slot, live, dead, unused);
                     r == Ok(verdict) && entries == old(entries)[id := u.(slot := slot)]
      ensures Valid() && Used(old(Now()), Now())
    {
      if name !in upstreams { return Err(Unknown); }
      assert Owned(Now(), name, upstreams[name]);
      r := Demand(upstreams[name], live, dead, unused);
    }

    /** A ladder lands: installed only if the slot is still its own. */
    method Land(id: nat, claim: nat, outcome: Outcome) returns (answer: Answer)
      requires id < |entries|
      modifies this`entries
      ensures var u := old(entries)[id];
              var (slot, settled) := Settle(u.slot, outcome, Abandoned(u.slot, u.retired, claim));
              answer == settled && entries == old(entries)[id := u.(slot := slot)]
      ensures Used(old(Now()), Now())
    {
      var u := entries[id];
      var abandoned := u.retired || u.slot != Connecting(claim);
      var slot := u.slot;
      match outcome {
        case Connected(service) =>
          if abandoned {
            answer := ShutDown;
          } else {
            slot := Slot.Ready(service);
            answer := Live(service);
          }
        case Refused =>
          if !abandoned { slot := Failed; }
          answer := Error;
        case Unauthorized =>
          if !abandoned { slot := AuthRequired; }
          answer := Error;
      }
      entries := entries[id := u.(slot := slot)];
    }

    /** A request on `stale` failed: at the transport, or for an expired credential. */
    method GiveUp(name: string, stale: nat, expired: bool)
      requires Valid()
      modifies this`entries
      ensures name !in upstreams ==> entries == old(entries)
      ensures name in upstreams ==>
                var id := upstreams[name];
                var u := old(entries)[id];
                entries == old(entries)[id := u.(slot := TakeOut(u.slot, stale, if expired then Idle else Failed))]
      ensures Valid() && Used(old(Now()), Now())
    {
      if name !in upstreams { return; }
      assert Owned(Now(), name, upstreams[name]);
      var id := upstreams[name];
      var u := entries[id];
      if u.slot == Slot.Ready(stale) {
        entries := entries[id := u.(slot := if expired then Idle else Failed)];
      }
      assert entries == old(entries)[id := entries[id]];
    }

    /** Charges one call against a name's own budget, at its limit as of now. */
    method Charge(name: string, now: int) returns (refused: Option<Budget.OverBudget>)
      requires Valid()
      modifies this`entries
      ensures name !in upstreams ==> refused == None && entries == old(entries)
      ensures name in upstreams ==>
                var id := upstreams[name];
                var u := old(entries)[id];
                var (deadline, answer) := Budget.Charged(u.deadline, u.server.callsPerMinute, now);
                refused == answer && entries == old(entries)[id := u.(deadline := deadline)]
      ensures Valid() && Used(old(Now()), Now())
    {
      if name !in upstreams { return None; }
      assert Owned(Now(), name, upstreams[name]);
      var id := upstreams[name];
      var meter := new Budget.Meter();
      meter.deadline := entries[id].deadline;
      refused := meter.Charge(entries[id].server.callsPerMinute, now);
      entries := entries[id := entries[id].(deadline := meter.deadline)];
    }

    /** Gives one name of the new config its entry. */
    method PlaceOne(n: string, server: Server) returns (id: nat, fate: Fate)
      requires n in upstreams ==> Owned(Now(), n, upstreams[n])
      requires |madeFor| == |entries| && |openedFor| == |channels|
      modifies this`entries, this`channels, this`madeFor, this`openedFor
      ensures (Now(), id) == Place(old(Now()), upstreams, n, server)
      ensures fate == FateIn(old(Now()), upstreams, n, server)
    {
      id := |entries|;
      if n !in upstreams {
        entries, madeFor := entries + [NewUpstream(server, |channels|)], madeFor + [n];
        channels, openedFor := channels + [[]], openedFor + [n];
        return id, Gained;
      }
      var existing := entries[upstreams[n]];
      if existing.server == server {
        assert entries == entries[upstreams[n] := existing.(server := server)];
        return upstreams[n], Unchanged;
      }
      if existing.server.transport == server.transport {
        fate := if existing.server.enabled && !server.enabled then SwitchedOff else Edited;
        entries := entries[upstreams[n] := existing.(server := server)];
        return upstreams[n], fate;
      }
      entries, madeFor := entries + [NewUpstream(server, existing.channel)], madeFor + [n];
      fate := Swapped;
    }

    /** The first loop of a reload: every name of the new config gets an entry. */
    method PlaceAll(servers: Configs, names: seq<string>, ghost w: World) returns (next: map<string, nat>, notes: Notes)
      requires Valid() && w == Now()
      requires Sorted(names) && forall n :: n in names <==> n in servers
      modifies this`entries, this`channels, this`madeFor, this`openedFor
      ensures next.Keys == servers.Keys && FirstLoop(w, upstreams, servers, Now(), next)
      ensures NotedUpto(notes, names, |names|, Configured(w, upstreams), servers)
    {
      next, notes := map[], Notes(Changes([], [], [], []), []);
      for i := 0 to |names|
        invariant next.Keys == Sync.Upto(names, i, servers.Keys)
        invariant FirstLoop(w, upstreams, servers, Now(), next)
        invariant NotedUpto(notes, names, i, Configured(w, upstreams), servers)
      {
        var name := names[i];
        NextName(names, i, servers);
        NotedStep(notes, names, i, Configured(w, upstreams), servers);
        PlaceKeeps(w, upstreams, servers, Now(), next, name);
        var id, fate := PlaceOne(name, servers[name]);
        notes := Noted(notes, name, fate);
        next := next[name := id];
      }
      LastName(names, servers);
    }

    /** The names the new config lost. */
    method Missing(kept: set<string>, present: seq<string>) returns (removed: seq<string>)
      requires Sorted(present)
      ensures Sync.IsList(removed, set n | n in present && n !in kept)
    {
      removed := [];
      ghost var lost := set n | n in present && n !in kept;
      for i := 0 to |present|
        invariant Sync.Visited(removed, present, i, lost)
      {
        Sync.UptoStep(present, i, lost, removed);
        if present[i] !in kept { removed := removed + [present[i]]; }
      }
      Sync.UptoAll(present, lost, removed);
    }

    /** Retires the entries the names had in `current`. */
    method RetireAll(current: map<string, nat>, names: seq<string>)
      requires InPlace(Now(), current) && forall n :: n in names ==> n in current
      modifies this`entries
      ensures RetiredUpto(old(Now()), current, names, entries)
    {
      for i := 0 to |names|
        invariant RetiredUpto(old(Now()), current, names[..i], entries)
      {
        assert names[i] in names && names[..i + 1] == names[..i] + [names[i]];
        var id := current[names[i]];
        entries := entries[id := RetiredUpstream(entries[id])];
      }
      assert names[..|names|] == names;
    }

    /** Publishes every family on the channels of the names' entries in `current`. */
    method AnnounceAll(current: map<string, nat>, names: seq<string>)
      requires InPlace(Now(), current) && Sorted(names) && forall n :: n in names ==> n in current
      modifies this`channels
      ensures ToldUpto(old(Now()), current, names, channels)
    {
      for i := 0 to |names|
        invariant ToldUpto(old(Now()), current, names[..i], channels)
      {
        assert names[i] in names && names[..i + 1] == names[..i] + [names[i]];
        NotYet(names, i);
        var c := entries[current[names[i]]].channel;
        channels := channels[c := channels[c] + [Tools]];
        channels := channels[c := channels[c] + [Resources]];
        channels := channels[c := channels[c] + [Prompts]];
      }
      assert names[..|names|] == names;
    }

    /** The four lists of changes, and every entry to retire. */
    method Report(notes: Notes, placed: set<string>, names: seq<string>, present: seq<string>, ghost before: Configs,
                  ghost servers: Configs)
      returns (changes: Changes, retire: seq<string>)
      requires (forall n :: n in names <==> n in servers) && NotedUpto(notes, names, |names|, before, servers)
      requires Sorted(present) && (forall n :: n in present <==> n in before) && placed == servers.Keys
      ensures IsReport(changes, before, servers)
      ensures forall n :: n in retire <==> n in RetiringNames(before, servers)
    {
      NotedAll(notes, names, before, servers);
      var removed := Missing(placed, present);
      assert (set n | n in present && n !in placed) == RemovedNames(before, servers);
      changes := notes.changes.(removed := removed);
      retire := notes.retire + removed;
    }

    /** The second half of a reload: the maps are swapped, what is no longer served is retired, and
        then the news is sent. */
    method Finish(next: map<string, nat>, retire: seq<string>, announce: seq<string>, ghost w: World,
                  ghost servers: Configs)
      requires FirstLoop(w, upstreams, servers, Now(), next) && next.Keys == servers.Keys
      requires forall n :: n in retire <==> n in RetiringNames(Configured(w, upstreams), servers)
      requires Sync.IsList(announce, ReplacedNames(Configured(w, upstreams), servers))
      modifies this
      ensures upstreams == next && Reloaded(w, old(upstreams), servers, Now(), next)
    {
      ghost var v := Now();
      var current := upstreams;
      upstreams := next;
      OldOnes(w, current, servers, v, next);
      AllOld(w, current, servers, retire, announce);
      RetireAndTell(current, retire, announce);
      ReloadDone(w, current, servers, v, next, retire, announce, Now());
    }

    method RetireAndTell(current: map<string, nat>, retire: seq<string>, announce: seq<string>)
      requires InPlace(Now(), current) && Sorted(announce)
      requires forall n :: n in retire || n in announce ==> n in current
      modifies this`entries, this`channels
      ensures RetiredUpto(old(Now()), current, retire, entries) && ToldUpto(old(Now()), current, announce, channels)
    {
      ghost var v := Now();
      RetireAll(current, retire);
      RetiredInPlace(v, current, retire, entries);
      AnnounceAll(current, announce);
      SameChannels(v, current, retire, entries, announce, channels);
    }

    method ApplyNamed(servers: Configs, names: seq<string>, present: seq<string>) returns (changes: Changes)
      requires Valid()
      requires Sorted(names) && forall n :: n in names <==> n in servers
      requires Sorted(present) && forall n :: n in present <==> n in upstreams
      modifies this
      ensures Valid() && Reloaded(old(Now()), old(upstreams), servers, Now(), upstreams)
      ensures IsReport(changes, Configured(old(Now()), old(upstreams)), servers)
    {
      ghost var w, before := Now(), Configured(Now(), upstreams);
      var next, notes := PlaceAll(servers, names, w);
      var retire;
      changes, retire := Report(notes, next.Keys, names, present, before, servers);
      Finish(next, retire, changes.replaced, w, servers);
    }

    /** Makes `servers` the live set. */
    method Apply(servers: Configs) returns (changes: Changes)
      requires Valid()
      modifies this
      ensures Valid() && Reloaded(old(Now()), old(upstreams), servers, Now(), upstreams)
      ensures IsReport(changes, Configured(old(Now()), old(upstreams)), servers)
    {
      changes := ApplyNamed(servers, SortedKeys(servers.Keys), SortedKeys(upstreams.Keys));
    }
  }

  ghost predicate IsReport(changes: Changes, before: Configs, servers: Configs) {
    && Sync.IsList(changes.added, AddedNames(before, servers))
    && Sync.IsList(changes.replaced, ReplacedNames(before, servers))
    && Sync.IsList(changes.removed, RemovedNames(before, servers))
    && Sync.IsList(changes.stopped, StoppedNames(before, servers))
  }

  /** Every entry of `m` is there, with its channel, and made for its name. */
  ghost predicate InPlace(v: World, m: map<string, nat>) {
    && |v.madeFor| == |v.entries| && |v.openedFor| == |v.channels|
    && forall n :: n in m ==>
         && m[n] < |v.entries| && v.madeFor[m[n]] == n
         && v.entries[m[n]].channel < |v.channels| && v.openedFor[v.entries[m[n]].channel] == n
  }

  /** The first loop leaves every old entry in its place and on its channel. */
  lemma OldOnes(w: World, m: map<string, nat>, servers: Configs, v: World, next: map<string, nat>)
    requires FirstLoop(w, m, servers, v, next)
    ensures InPlace(v, m)
  {
    forall n | n in m
      ensures m[n] < |v.entries| && v.madeFor[m[n]] == n
      ensures v.entries[m[n]].channel < |v.channels| && v.openedFor[v.entries[m[n]].channel] == n
    {
      assert Owned(w, n, m[n]);
      var c := w.entries[m[n]].channel;
      assert v.openedFor[c] == w.openedFor[c] && v.madeFor[m[n]] == w.madeFor[m[n]];
      if n in next && next[n] == m[n] { assert Placed(w, m, servers, v, n, next[n]); }
    }
  }

  lemma AllOld(w: World, m: map<string, nat>, servers: Configs, retire: seq<string>, announce: seq<string>)
    requires Sound(w, m)
    requires forall n :: n in retire <==> n in RetiringNames(Configured(w, m), servers)
    requires Sync.IsList(announce, ReplacedNames(Configured(w, m), servers))
    ensures forall n :: n in retire ==> n in m
    ensures forall n :: n in announce ==> n in m
  {
  }

  lemma RetiredInPlace(v: World, m: map<string, nat>, retire: seq<string>, entries: seq<Upstream>)
    requires InPlace(v, m) && RetiredUpto(v, m, retire, entries)
    ensures InPlace(v.(entries := entries), m)
  {
  }

  /** Retiring changes no channel, so the news goes where it would have gone before. */
  lemma SameChannels(v: World, m: map<string, nat>, retire: seq<string>, entries: seq<Upstream>,
                     announce: seq<string>, channels: seq<seq<Family>>)
    requires RetiredUpto(v, m, retire, entries) && ToldUpto(v.(entries := entries), m, announce, channels)
    ensures ToldUpto(v, m, announce, channels)
  {
    forall c: nat | c < |channels| ensures Heard(v, m, announce, c) == Heard(v.(entries := entries), m, announce, c) {}
  }

  lemma NextName(names: seq<string>, i: nat, servers: Configs)
    requires Sorted(names) && i < |names| && forall n :: n in names ==> n in servers
    ensures names[i] in servers && names[i] !in Sync.Upto(names, i, servers.Keys)
    ensures Sync.Upto(names, i + 1, servers.Keys) == Sync.Upto(names, i, servers.Keys) + {names[i]}
  {
    NotYet(names, i);
    assert names[i] in names && names[..i + 1] == names[..i] + [names[i]];
  }

  lemma LastName(names: seq<string>, servers: Configs)
    requires forall n :: n in names <==> n in servers
    ensures Sync.Upto(names, |names|, servers.Keys) == servers.Keys && names[..|names|] == names
  {
  }

  lemma NotYet(names: seq<string>, i: nat)
    requires Sorted(names) && i < |names|
    ensures names[i] !in names[..i]
  {
    if names[i] in names[..i] {
      var j :| 0 <= j < i && names[j] == names[i];
      LessIrreflexive(names[i]);
    }
  }


  // ---- whole histories of one name ----

  /** A name's entry, as far as answering a demand goes. */
  datatype Entry = Entry(server: Server, retired: bool)

  /** What one reload makes of it; None is a name the config does not have. */
  function Next(entry: Option<Entry>, server: Option<Server>): Option<Entry> {
    match server
    case None => None
    case Some(s) =>
      if entry.Some? && entry.value.server.transport == s.transport then
        Some(Entry(s, entry.value.retired || (entry.value.server.enabled && !s.enabled)))
      else
        Some(Entry(s, false))
  }

  /** The reload of the manager does exactly that to every name. */
  lemma ReloadIsNext(w: World, m: map<string, nat>, servers: Configs, v: World, next: map<string, nat>, n: string)
    requires Sound(w, m) && Reloaded(w, m, servers, v, next)
    ensures EntryOf(v, next, n) == Next(EntryOf(w, m, n), if n in servers then Some(servers[n]) else None)
  {
    assert ReloadedAt(w, m, servers, v, next, n);
  }

  function EntryOf(w: World, m: map<string, nat>, n: string): Option<Entry>
    requires Sound(w, m)
  {
    if n in m then
      assert Owned(w, n, m[n]);
      Some(Entry(w.entries[m[n]].server, w.entries[m[n]].retired))
    else None
  }

  /** The entry after a history of configs, oldest first. */
  function After(history: seq<Option<Server>>): Option<Entry> {
    if history == [] then None else Next(After(history[..|history| - 1]), history[|history| - 1])
  }

  /** Reload k switched the server off, and every config since had it, with the transport it has
      now. */
  ghost predicate SwitchedOffAt(history: seq<Option<Server>>, k: nat) {
    && 0 < k < |history|
    && (forall i :: k - 1 <= i < |history| ==>
          history[i].Some? && history[|history| - 1].Some?
          && history[i].value.transport == history[|history| - 1].value.transport)
    && history[k - 1].value.enabled && !history[k].value.enabled
  }

  lemma {:induction false} AfterServer(history: seq<Option<Server>>)
    requires history != []
    ensures After(history).Some? <==> history[|history| - 1].Some?
    ensures After(history).Some? ==> After(history).value.server == history[|history| - 1].value
  {
  }

  /** An entry is retired, and every demand on it refused, exactly when some reload in its present
      stretch, under one transport and never gone, switched it off. Switching it on again later
      does not bring it back. */
  lemma {:induction false} RetiredExactlyWhen(history: seq<Option<Server>>)
    requires After(history).Some?
    ensures After(history).value.retired <==> exists k: nat :: SwitchedOffAt(history, k)
  {
    var n := |history| - 1;
    var before := history[..n];
    AfterServer(history);
    if n > 0 {
      AfterServer(before);
      if history[n - 1].Some? && history[n - 1].value.transport == history[n].value.transport {
        assert After(before).Some?;
        RetiredExactlyWhen(before);
        if k: nat :| SwitchedOffAt(before, k) { StretchGrows(history, k); }
        if k: nat :| SwitchedOffAt(history, k) {
          if k < n { StretchShrinks(history, k); }
        }
        if history[n - 1].value.enabled && !history[n].value.enabled { assert SwitchedOffAt(history, n); }
      } else {
        if k: nat :| SwitchedOffAt(history, k) {
          StretchHolds(history, k);
          assert false;
        }
      }
    }
  }

  lemma StretchHolds(history: seq<Option<Server>>, k: nat)
    requires |history| >= 2 && SwitchedOffAt(history, k)
    ensures history[|history| - 2].Some? && history[|history| - 1].Some?
    ensures history[|history| - 2].value.transport == history[|history| - 1].value.transport
  {
  }

  lemma StretchGrows(history: seq<Option<Server>>, k: nat)
    requires |history| >= 2 && SwitchedOffAt(history[..|history| - 1], k)
    requires history[|history| - 2].Some? && history[|history| - 1].Some?
    requires history[|history| - 2].value.transport == history[|history| - 1].value.transport
    ensures SwitchedOffAt(history, k)
  {
    var before := history[..|history| - 1];
    forall i | k - 1 <= i < |history|
      ensures history[i].Some? && history[i].value.transport == history[|history| - 1].value.transport
    {
      if i < |history| - 1 { assert before[i] == history[i]; }
    }
    assert before[k - 1] == history[k - 1] && before[k] == history[k];
  }

  lemma StretchShrinks(history: seq<Option<Server>>, k: nat)
    requires SwitchedOffAt(history, k) && k < |history| - 1
    ensures SwitchedOffAt(history[..|history| - 1], k)
  {
    var before := history[..|history| - 1];
    assert history[|history| - 2].Some?;
    forall i | k - 1 <= i < |before|
      ensures before[i].Some? && before[i].value.transport == before[|before| - 1].value.transport
    {
      assert before[i] == history[i];
    }
  }

  /** So enabled does not mean served: off and on again with one transport is an enabled entry
      that refuses every demand, until its transport is edited or it is removed and added. */
  lemma OffAndOnAgain(history: seq<Option<Server>>, on: Server)
    requires After(history).Some? && After(history).value.server == on && on.enabled
    ensures var off := on.(enabled := false);
            var entry := After(history + [Some(off), Some(on)]);
            entry == Some(Entry(on, true))
            && Next(entry, Some(on)) == entry
            && (forall s: Server :: s.transport != on.transport ==> Next(entry, Some(s)) == Some(Entry(s, false)))
            && Next(Next(entry, None), Some(on)) == Some(Entry(on, false))
  {
    var off := on.(enabled := false);
    var h1, h2 := history + [Some(off)], history + [Some(off), Some(on)];
    assert h1[..|history|] == history;
    assert h2[..|history| + 1] == h1;
  }
}
