/** What a reload leaves of every entry and every channel, field by field. */
module ReloadEffects {
  import opened Common
  import opened SlotProtocol
  import opened Upstreams
  import Relay
  import Text

  /** The config has the name with the transport its entry has. */
  predicate SameTransportFor(u: Upstream, servers: Configs, n: string) {
    n in servers && u.server.transport == servers[n].transport
  }

  /** The entry a name had goes out of service: its name is gone, its transport is another one, or it
      was just switched off. */
  predicate GoesOut(u: Upstream, servers: Configs, n: string) {
    !SameTransportFor(u, servers, n) || (u.server.enabled && !servers[n].enabled)
  }

  /** Whatever goes out of service is marked so and lets go of its connection; what calls it owes and
      where its news go stays, and so does its server unless it was only switched off. */
  lemma OutOfService(w: World, m: map<string, nat>, servers: Configs, v: World, next: map<string, nat>, n: string)
    requires Sound(w, m) && Reloaded(w, m, servers, v, next) && n in m
    ensures m[n] < |w.entries| && m[n] < |v.entries|
    ensures var was, now := w.entries[m[n]], v.entries[m[n]];
            GoesOut(was, servers, n) ==>
              && now.retired && now.slot == Idle && now.deadline == was.deadline && now.channel == was.channel
              && now.server == if SameTransportFor(was, servers, n) then servers[n] else was.server
  {
    assert ReloadedAt(w, m, servers, v, next, n);
  }

  /** That is what the two writes of a retire leave of the slot. */
  lemma RetiredAsInTheProtocol(w: World, m: map<string, nat>, servers: Configs, v: World, next: map<string, nat>,
                               n: string, s: State, p: nat)
    requires Sound(w, m) && Reloaded(w, m, servers, v, next) && n in m
    requires m[n] < |w.entries| && GoesOut(w.entries[m[n]], servers, n)
    requires Enabled(s, FlagRetired(p)) && s.lock.None?
    ensures Enabled(Apply(s, FlagRetired(p)), RetireWrite(p)) && m[n] < |v.entries|
    ensures var t := Apply(Apply(s, FlagRetired(p)), RetireWrite(p));
            t.slot == v.entries[m[n]].slot && t.retired == v.entries[m[n]].retired
  {
    OutOfService(w, m, servers, v, next, n);
  }

  /** Any other entry stays the one its name is served by, with everything but its server as it was. */
  lemma StaysInService(w: World, m: map<string, nat>, servers: Configs, v: World, next: map<string, nat>, n: string)
    requires Sound(w, m) && Reloaded(w, m, servers, v, next) && n in m
    ensures m[n] < |w.entries| && m[n] < |v.entries|
    ensures var was, now := w.entries[m[n]], v.entries[m[n]];
            !GoesOut(was, servers, n) ==>
              && n in next && next[n] == m[n] && now.server == servers[n]
              && now.retired == was.retired && now.slot == was.slot && now.deadline == was.deadline
              && now.channel == was.channel
  {
    assert ReloadedAt(w, m, servers, v, next, n);
  }

  /** A name is served after the reload exactly if the config has it: by the entry it had if the
      transport is the same, else by an entry nobody has used, on the old channel if there was one. */
  lemma ServedBy(w: World, m: map<string, nat>, servers: Configs, v: World, next: map<string, nat>, n: string)
    requires Sound(w, m) && Reloaded(w, m, servers, v, next)
    ensures n in next <==> n in servers
    ensures n in m ==> m[n] < |w.entries|
    ensures n in next ==> next[n] < |v.entries|
    ensures n in m && SameTransportFor(w.entries[m[n]], servers, n) ==> next[n] == m[n]
    ensures n in next && (n !in m || !SameTransportFor(w.entries[m[n]], servers, n)) ==>
              var now := v.entries[next[n]];
              && next[n] >= |w.entries|
              && now.server == servers[n] && !now.retired && now.slot == Idle && now.deadline == None
              && if n in m then now.channel == w.entries[m[n]].channel else now.channel >= |w.channels|
  {
    assert ReloadedAt(w, m, servers, v, next, n);
  }

  /** The channel of a name that got another transport hears of its tools, its resources and its
      prompts, once each; no other name's channel hears anything, and a new one starts silent. */
  lemma ToldOnce(w: World, m: map<string, nat>, servers: Configs, v: World, next: map<string, nat>, n: string)
    requires Sound(w, m) && Reloaded(w, m, servers, v, next)
    ensures n in m ==>
              && m[n] < |w.entries| && w.entries[m[n]].channel < |w.channels|
              && w.entries[m[n]].channel < |v.channels|
    ensures n in m ==>
              var u := w.entries[m[n]];
              v.channels[u.channel]
              == w.channels[u.channel]
                 + if n in servers && !SameTransportFor(u, servers, n)
                   then [Relay.Tools, Relay.Resources, Relay.Prompts]
                   else []
    ensures n in next && n !in m ==>
              && next[n] < |v.entries| && v.entries[next[n]].channel < |v.channels|
              && v.channels[v.entries[next[n]].channel] == []
  {
    assert ReloadedAt(w, m, servers, v, next, n);
    if n in m {
      var log := w.channels[w.entries[m[n]].channel];
      assert log + [] == log;
    }
  }

  /** An entry that was out of the map already is left alone. */
  lemma OutOfTheMap(w: World, m: map<string, nat>, servers: Configs, v: World, next: map<string, nat>, id: nat)
    requires Sound(w, m) && Reloaded(w, m, servers, v, next) && id < |w.entries|
    requires forall n :: n in m ==> m[n] != id
    ensures id < |v.entries| && v.entries[id] == w.entries[id]
    ensures forall n :: n in next ==> next[n] != id
  {
    assert id !in m.Values;
    forall n | n in next ensures next[n] != id { assert ReloadedAt(w, m, servers, v, next, n); }
  }

  /** The four lists, by what was configured and what is, each in order and without repetitions. */
  lemma ReportedChanges(w: World, m: map<string, nat>, servers: Configs, changes: Changes, n: string)
    requires Sound(w, m) && IsReport(changes, Configured(w, m), servers)
    ensures n in m ==> m[n] < |w.entries|
    ensures n in changes.added <==> n in servers && n !in m
    ensures n in changes.removed <==> n in m && n !in servers
    ensures n in changes.replaced <==> n in m && n in servers && !SameTransportFor(w.entries[m[n]], servers, n)
    ensures n in changes.stopped <==> n in m && SameTransportFor(w.entries[m[n]], servers, n)
                                      && w.entries[m[n]].server.enabled && !servers[n].enabled
    ensures Text.Sorted(changes.added) && Text.Sorted(changes.removed)
    ensures Text.Sorted(changes.replaced) && Text.Sorted(changes.stopped)
  {
    if n in m { assert Owned(w, n, m[n]); }
  }
}
