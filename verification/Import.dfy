/** Planning an import: every entry the clients hold becomes part of exactly one candidate, and
    every candidate gets a name of its own. */
module Import {
  import opened Common
  import opened Text
  import opened ServerNames
  import opened Servers

  /** What one entry of a client's file means; `server` is None for a problem of the whole file. */
  datatype Problem = Problem(server: Option<string>, message: string)

  datatype ClientRead = ClientRead(servers: map<string, Server>, problems: seq<Problem>)

  datatype SameAddress = SameAddress(name: string, canonical: bool)

  type Origin = (string, string)

  datatype Candidate = Candidate(name: string, server: Server, origins: seq<Origin>, renamed: bool, notes: seq<string>,
                                 commandMissing: bool, sameAddress: Option<SameAddress>, adoptAs: Option<string>)

  datatype Plan = Plan(added: seq<Candidate>, already: seq<Candidate>, conflicts: seq<Candidate>)

  // ---- the entries, in the order they are read ----

  datatype Entry = Entry(client: string, name: string, server: Server, notes: seq<string>)

  function NotesFor(problems: seq<Problem>, name: string): seq<string> {
    if problems == [] then []
    else
      var last := problems[|problems| - 1];
      NotesFor(problems[..|problems| - 1], name) + (if last.server == Some(name) then [last.message] else [])
  }

  function EntryOf(source: (string, ClientRead), name: string): Entry
    requires name in source.1.servers
  {
    Entry(source.0, name, source.1.servers[name], NotesFor(source.1.problems, name))
  }

  function EntriesOf(source: (string, ClientRead), names: seq<string>): seq<Entry>
    requires forall n :: n in names ==> n in source.1.servers
  {
    seq(|names|, i requires 0 <= i < |names| => EntryOf(source, names[i]))
  }

  function Entries(sources: seq<(string, ClientRead)>): seq<Entry> {
    if sources == [] then []
    else
      var last := sources[|sources| - 1];
      Entries(sources[..|sources| - 1]) + EntriesOf(last, SortedKeys(last.1.servers.Keys))
  }

  // ---- what a candidate is made of ----

  /** The entries that address the server `t` addresses, in order. */
  function Class(es: seq<Entry>, t: Transport): seq<Entry> {
    if es == [] then []
    else
      var e := es[|es| - 1];
      Class(es[..|es| - 1], t) + (if SameTransport(t, e.server.transport) then [e] else [])
  }

  lemma {:induction false} ClassMembers(es: seq<Entry>, t: Transport, e: Entry)
    ensures e in Class(es, t) <==> e in es && SameTransport(t, e.server.transport)
  {
    if es != [] {
      ClassMembers(es[..|es| - 1], t, e);
      assert es == es[..|es| - 1] + [es[|es| - 1]];
    }
  }

  function OriginsOf(es: seq<Entry>): seq<Origin> {
    seq(|es|, i requires 0 <= i < |es| => (es[i].client, es[i].name))
  }

  /** `xs`, and then each of `ys` that is not there yet. */
  function Merged(xs: seq<string>, ys: seq<string>): (r: seq<string>)
    ensures xs <= r
    ensures forall x :: x in r <==> x in xs || x in ys
  {
    if ys == [] then xs
    else
      var y := ys[|ys| - 1];
      var r := Merged(xs, ys[..|ys| - 1]);
      assert ys == ys[..|ys| - 1] + [y];
      if y in r then r else r + [y]
  }

  /** The first list, and then what the later ones add. */
  function Union(lists: seq<seq<string>>): seq<string> {
    if lists == [] then []
    else if |lists| == 1 then lists[0]
    else Merged(Union(lists[..|lists| - 1]), lists[|lists| - 1])
  }

  lemma {:induction false} UnionMembers(lists: seq<seq<string>>, x: string)
    ensures x in Union(lists) <==> exists i :: 0 <= i < |lists| && x in lists[i]
    ensures lists != [] ==> lists[0] <= Union(lists)
  {
    if |lists| > 1 {
      var n := |lists| - 1;
      UnionMembers(lists[..n], x);
      if x in Union(lists[..n]) {
        var i :| 0 <= i < n && x in lists[..n][i];
        assert x in lists[i];
      }
      if i :| 0 <= i < n && x in lists[i] { assert x in lists[..n][i]; }
    }
  }

  function TagsOf(k: seq<Entry>): seq<seq<string>> {
    seq(|k|, i requires 0 <= i < |k| => k[i].server.tags)
  }

  function NotesOf(k: seq<Entry>): seq<seq<string>> {
    seq(|k|, i requires 0 <= i < |k| => k[i].notes)
  }

  predicate AllEnabled(k: seq<Entry>) {
    forall i :: 0 <= i < |k| ==> k[i].server.enabled
  }

  predicate Missing(t: Transport, commandExists: string -> bool) {
    t.Stdio? && !commandExists(t.command)
  }

  /** A candidate stands for a whole class: the first entry's definition, every origin in order,
      enabled only if all of them are and the command is there, and nobody's tags or notes lost. */
  ghost predicate Describes(c: Candidate, es: seq<Entry>, commandExists: string -> bool) {
    StandsFor(c, Class(es, c.server.transport), commandExists)
  }

  ghost predicate StandsFor(c: Candidate, k: seq<Entry>, commandExists: string -> bool) {
    && k != []
    && c.origins == OriginsOf(k)
    && c.server.transport == k[0].server.transport
    && c.server.callsPerMinute == k[0].server.callsPerMinute
    && c.server.tools == k[0].server.tools
    && c.commandMissing == Missing(c.server.transport, commandExists)
    && c.server.enabled == (AllEnabled(k) && !c.commandMissing)
    && c.server.tags == Union(TagsOf(k))
    && c.notes == Union(NotesOf(k))
    && c.adoptAs == None
  }

  /** Every entry is in some candidate's class, and no two candidates share one. */
  ghost predicate Covers(es: seq<Entry>, cands: seq<Candidate>, commandExists: string -> bool) {
    && (forall i :: 0 <= i < |cands| ==> Describes(cands[i], es, commandExists))
    && (forall i :: 0 <= i < |es| ==> Known(cands, es[i].server.transport))
    && Apart(cands)
  }

  ghost predicate Known(cands: seq<Candidate>, t: Transport) {
    exists i :: 0 <= i < |cands| && SameTransport(cands[i].server.transport, t)
  }

  ghost predicate Apart(cands: seq<Candidate>) {
    forall i, j :: 0 <= i < j < |cands| ==> !SameTransport(cands[i].server.transport, cands[j].server.transport)
  }

  // ---- what a candidate is called ----

  /** What merging never changes about a candidate. */
  datatype Title = Title(name: string, original: string, renamed: bool, transport: Transport,
                         sameAddress: Option<SameAddress>)

  function TitleOf(c: Candidate): Title {
    Title(c.name, if c.origins == [] then "" else c.origins[0].1, c.renamed, c.server.transport, c.sameAddress)
  }

  function Titles(cands: seq<Candidate>): (ts: seq<Title>)
    ensures |ts| == |cands|
  {
    seq(|cands|, i requires 0 <= i < |cands| => TitleOf(cands[i]))
  }

  function NamesOf(ts: seq<Title>): set<string> { set t | t in ts :: t.name }

  function Base(original: string): string {
    if ValidName(original) then original else Slug(original)
  }

  /** The entry with the same address and other credentials: a canonical one if there is any,
      else the first candidate so far. */
  function AddressOf(t: Transport, canonical: map<string, Server>, before: seq<Title>): Option<SameAddress> {
    var known := set n | n in canonical && OtherCredentials(t, canonical[n].transport);
    if known != {} then Some(SameAddress(Least(known), true)) else FirstOther(t, before)
  }

  function FirstOther(t: Transport, ts: seq<Title>): Option<SameAddress> {
    if ts == [] then None
    else if OtherCredentials(t, ts[0].transport) then Some(SameAddress(ts[0].name, false))
    else FirstOther(t, ts[1..])
  }

  function Taken(original: string, canonical: map<string, Server>, before: seq<Title>): set<string> {
    NamesOf(before) + (canonical.Keys - {original})
  }

  ghost predicate NamedWell(t: Title, canonical: map<string, Server>, before: seq<Title>) {
    && t.renamed == !(ValidName(t.original) && t.original !in NamesOf(before))
    && (if t.renamed then IsNextFree(t.name, Base(t.original), Taken(t.original, canonical, before))
        else t.name == t.original)
    && ValidName(t.name)
    && t.sameAddress == AddressOf(t.transport, canonical, before)
  }

  ghost predicate Named(ts: seq<Title>, canonical: map<string, Server>) {
    forall i :: 0 <= i < |ts| ==> NamedWell(ts[i], canonical, ts[..i])
  }

  /** The candidates of `es`. */
  ghost predicate Planned(es: seq<Entry>, canonical: map<string, Server>, commandExists: string -> bool,
                          cands: seq<Candidate>)
  {
    Covers(es, cands, commandExists) && Named(Titles(cands), canonical)
  }

  // ---- one entry ----

  lemma OtherClass(es: seq<Entry>, e: Entry, t: Transport)
    requires !SameTransport(t, e.server.transport)
    ensures Class(es + [e], t) == Class(es, t)
  {
    assert (es + [e])[..|es|] == es;
  }

  /** The candidate `c` with the entry `e` folded in. */
  function Folded(c: Candidate, e: Entry): Candidate {
    c.(origins := c.origins + [(e.client, e.name)],
       server := c.server.(enabled := c.server.enabled && e.server.enabled,
                           tags := Merged(c.server.tags, e.server.tags)),
       notes := Merged(c.notes, e.notes))
  }

  lemma FoldedStandsFor(c: Candidate, k: seq<Entry>, e: Entry, commandExists: string -> bool)
    requires StandsFor(c, k, commandExists)
    ensures StandsFor(Folded(c, e), k + [e], commandExists)
  {
    assert OriginsOf(k + [e]) == OriginsOf(k) + [(e.client, e.name)];
    assert TagsOf(k + [e]) == TagsOf(k) + [e.server.tags];
    assert NotesOf(k + [e]) == NotesOf(k) + [e.notes];
    assert AllEnabled(k + [e]) == (AllEnabled(k) && e.server.enabled) by {
      assert (k + [e])[|k|] == e;
      assert forall i :: 0 <= i < |k| ==> (k + [e])[i] == k[i];
    }
  }

  lemma FoldedDescribes(c: Candidate, es: seq<Entry>, e: Entry, commandExists: string -> bool)
    requires Describes(c, es, commandExists) && SameTransport(c.server.transport, e.server.transport)
    ensures Describes(Folded(c, e), es + [e], commandExists)
  {
    FoldedStandsFor(c, Class(es, c.server.transport), e, commandExists);
  }

  /** The candidates of other servers describe what they did. */
  lemma OthersDescribe(c: Candidate, es: seq<Entry>, e: Entry, commandExists: string -> bool)
    requires Describes(c, es, commandExists) && !SameTransport(c.server.transport, e.server.transport)
    ensures Describes(c, es + [e], commandExists)
  {
    OtherClass(es, e, c.server.transport);
  }

  lemma OnlyOne(cands: seq<Candidate>, t: Transport, i: nat, j: nat)
    requires Apart(cands) && i < |cands| && j < |cands|
    requires SameTransport(cands[i].server.transport, t) && SameTransport(cands[j].server.transport, t)
    ensures i == j
  {
    SameTransportIsAnEquivalence(cands[i].server.transport, t, cands[j].server.transport);
    SameTransportIsAnEquivalence(cands[j].server.transport, t, cands[i].server.transport);
  }

  lemma AllDescribe(es: seq<Entry>, e: Entry, cands: seq<Candidate>, i: nat, commandExists: string -> bool)
    requires Apart(cands) && forall j :: 0 <= j < |cands| ==> Describes(cands[j], es, commandExists)
    requires i < |cands| && SameTransport(cands[i].server.transport, e.server.transport)
    ensures var r := cands[i := Folded(cands[i], e)];
            forall j :: 0 <= j < |r| ==> Describes(r[j], es + [e], commandExists)
  {
    var r := cands[i := Folded(cands[i], e)];
    FoldedDescribes(cands[i], es, e, commandExists);
    forall j | 0 <= j < |r| ensures Describes(r[j], es + [e], commandExists) {
      if j != i {
        if SameTransport(cands[j].server.transport, e.server.transport) { OnlyOne(cands, e.server.transport, i, j); }
        OthersDescribe(cands[j], es, e, commandExists);
      }
    }
  }

  /** Whatever the old candidates knew and the new entry's own transport. */
  lemma AllKnown(es: seq<Entry>, e: Entry, cands: seq<Candidate>, r: seq<Candidate>)
    requires forall i :: 0 <= i < |es| ==> Known(cands, es[i].server.transport)
    requires |cands| <= |r| && forall i :: 0 <= i < |cands| ==> r[i].server.transport == cands[i].server.transport
    requires Known(r, e.server.transport)
    ensures forall j :: 0 <= j < |es + [e]| ==> Known(r, (es + [e])[j].server.transport)
  {
    forall j | 0 <= j < |es| ensures Known(r, es[j].server.transport) {}
  }

  lemma FoldCovers(es: seq<Entry>, e: Entry, cands: seq<Candidate>, i: nat, commandExists: string -> bool)
    requires Covers(es, cands, commandExists)
    requires i < |cands| && SameTransport(cands[i].server.transport, e.server.transport)
    ensures Covers(es + [e], cands[i := Folded(cands[i], e)], commandExists)
  {
    var r := cands[i := Folded(cands[i], e)];
    AllDescribe(es, e, cands, i, commandExists);
    assert SameTransport(r[i].server.transport, e.server.transport);
    AllKnown(es, e, cands, r);
    SameTransportsApart(cands, r);
  }

  lemma FoldTitles(cands: seq<Candidate>, i: nat, e: Entry)
    requires i < |cands| && cands[i].origins != []
    ensures Titles(cands[i := Folded(cands[i], e)]) == Titles(cands)
  {
    assert TitleOf(Folded(cands[i], e)) == TitleOf(cands[i]);
  }

  lemma SameTransportsApart(cands: seq<Candidate>, r: seq<Candidate>)
    requires Apart(cands) && |r| == |cands|
    requires forall i :: 0 <= i < |cands| ==> r[i].server.transport == cands[i].server.transport
    ensures Apart(r)
  {
  }

  lemma NewClass(es: seq<Entry>, t: Transport, cands: seq<Candidate>)
    requires forall i :: 0 <= i < |es| ==> Known(cands, es[i].server.transport)
    requires !Known(cands, t)
    ensures Class(es, t) == []
  {
    var k := Class(es, t);
    if k != [] {
      ClassMembers(es, t, k[0]);
      var i :| 0 <= i < |es| && es[i] == k[0];
      var j :| 0 <= j < |cands| && SameTransport(cands[j].server.transport, es[i].server.transport);
      SameTransportIsAnEquivalence(t, es[i].server.transport, t);
      SameTransportIsAnEquivalence(cands[j].server.transport, es[i].server.transport, t);
      assert false;
    }
  }

  ghost predicate IsNew(c: Candidate, e: Entry, commandExists: string -> bool) {
    && c.commandMissing == Missing(e.server.transport, commandExists)
    && c.server == e.server.(enabled := e.server.enabled && !c.commandMissing)
    && c.origins == [(e.client, e.name)] && c.notes == e.notes && c.adoptAs == None
  }

  lemma NewDescribes(es: seq<Entry>, e: Entry, c: Candidate, commandExists: string -> bool)
    requires Class(es, e.server.transport) == [] && IsNew(c, e, commandExists)
    ensures Describes(c, es + [e], commandExists)
  {
    SameTransportIsAnEquivalence(e.server.transport, e.server.transport, e.server.transport);
    assert Class(es + [e], e.server.transport) == [e];
    assert OriginsOf([e]) == [(e.client, e.name)];
  }

  lemma NewCovers(es: seq<Entry>, e: Entry, cands: seq<Candidate>, c: Candidate, commandExists: string -> bool)
    requires Covers(es, cands, commandExists) && !Known(cands, e.server.transport) && IsNew(c, e, commandExists)
    ensures Covers(es + [e], cands + [c], commandExists)
  {
    var r := cands + [c];
    NewClass(es, e.server.transport, cands);
    NewDescribes(es, e, c, commandExists);
    forall j | 0 <= j < |cands| ensures Describes(r[j], es + [e], commandExists) {
      OthersDescribe(cands[j], es, e, commandExists);
    }
    SameTransportIsAnEquivalence(e.server.transport, e.server.transport, e.server.transport);
    assert SameTransport(r[|cands|].server.transport, e.server.transport);
    AllKnown(es, e, cands, r);
  }

  lemma NewNamed(ts: seq<Title>, t: Title, canonical: map<string, Server>)
    requires Named(ts, canonical) && NamedWell(t, canonical, ts)
    ensures Named(ts + [t], canonical)
  {
    forall i | 0 <= i <= |ts| ensures NamedWell((ts + [t])[i], canonical, (ts + [t])[..i]) {
      assert (ts + [t])[..i] == ts[..i];
      assert ts[..|ts|] == ts;
    }
  }

  /** The first candidate that addresses the same server. */
  method FindSame(cands: seq<Candidate>, t: Transport) returns (found: Option<nat>)
    ensures match found
            case Some(i) => i < |cands| && SameTransport(cands[i].server.transport, t)
            case None => !Known(cands, t)
  {
    for i := 0 to |cands|
      invariant forall j :: 0 <= j < i ==> !SameTransport(cands[j].server.transport, t)
    {
      if SameTransport(cands[i].server.transport, t) { return Some(i); }
    }
    return None;
  }

  /** The name an entry with a definition not seen before is planned under. */
  method ChooseName(original: string, canonical: map<string, Server>, before: seq<Title>)
    returns (name: string, renamed: bool)
    ensures renamed == !(ValidName(original) && original !in NamesOf(before))
    ensures if renamed then IsNextFree(name, Base(original), Taken(original, canonical, before)) else name == original
    ensures ValidName(name)
  {
    SlugIsValid(original);
    if ValidName(original) && original !in NamesOf(before) {
      return original, false;
    }
    var base := original;
    if !ValidName(original) { base := Slugify(original); }
    name := NextFree(base, Taken(original, canonical, before));
    renamed := true;
  }

  method Consider(ghost es: seq<Entry>, e: Entry, canonical: map<string, Server>, commandExists: string -> bool,
                  cands: seq<Candidate>) returns (r: seq<Candidate>)
    requires Planned(es, canonical, commandExists, cands)
    ensures Planned(es + [e], canonical, commandExists, r)
  {
    var found := FindSame(cands, e.server.transport);
    if found.Some? {
      var i := found.value;
      FoldCovers(es, e, cands, i, commandExists);
      assert Describes(cands[i], es, commandExists);
      FoldTitles(cands, i, e);
      return cands[i := Folded(cands[i], e)];
    }
    var before := Titles(cands);
    var name, renamed := ChooseName(e.name, canonical, before);
    var missing := Missing(e.server.transport, commandExists);
    var c := Candidate(name, e.server.(enabled := e.server.enabled && !missing), [(e.client, e.name)], renamed, e.notes,
                       missing, AddressOf(e.server.transport, canonical, before), None);
    NewCovers(es, e, cands, c, commandExists);
    NewNamed(before, TitleOf(c), canonical);
    assert Titles(cands + [c]) == before + [TitleOf(c)];
    r := cands + [c];
  }

  // ---- the plan ----

  datatype Kind = New | Already | Conflict

  function KindOf(c: Candidate, canonical: map<string, Server>): Kind {
    if c.name !in canonical then New
    else if SameTransport(canonical[c.name].transport, c.server.transport) then Already
    else Conflict
  }

  function OfKind(cands: seq<Candidate>, canonical: map<string, Server>, k: Kind): (r: seq<Candidate>)
    ensures forall c :: c in r <==> c in cands && KindOf(c, canonical) == k
  {
    if cands == [] then []
    else
      var c := cands[|cands| - 1];
      assert cands == cands[..|cands| - 1] + [c];
      OfKind(cands[..|cands| - 1], canonical, k) + (if KindOf(c, canonical) == k then [c] else [])
  }

  function Unoffered(cs: seq<Candidate>): seq<Candidate> {
    seq(|cs|, i requires 0 <= i < |cs| => cs[i].(adoptAs := None))
  }

  function OfferedNames(cs: seq<Candidate>): set<string> {
    set c | c in cs && c.adoptAs.Some? :: c.adoptAs.value
  }

  /** Every conflict is offered the first name free of the canonical config, of the plan, and of
      what earlier conflicts were offered. */
  ghost predicate Offered(cs: seq<Candidate>, reserved: set<string>) {
    forall i :: 0 <= i < |cs| ==>
      cs[i].adoptAs.Some? && IsNextFree(cs[i].adoptAs.value, cs[i].name, reserved + OfferedNames(cs[..i]))
  }

  function Reserved(cands: seq<Candidate>, canonical: map<string, Server>): set<string> {
    canonical.Keys + NamesOf(Titles(cands))
  }

  /** The plan of `cands`: each in its list, in order. */
  ghost predicate Classified(plan: Plan, cands: seq<Candidate>, canonical: map<string, Server>) {
    && plan.added == OfKind(cands, canonical, New)
    && plan.already == OfKind(cands, canonical, Already)
    && Unoffered(plan.conflicts) == OfKind(cands, canonical, Conflict)
    && Offered(plan.conflicts, Reserved(cands, canonical))
  }

  lemma OfferKeeps(cs: seq<Candidate>, d: Candidate, reserved: set<string>)
    requires Offered(cs, reserved)
    requires d.adoptAs.Some? && IsNextFree(d.adoptAs.value, d.name, reserved + OfferedNames(cs))
    ensures Offered(cs + [d], reserved)
  {
    var r := cs + [d];
    forall i | 0 <= i < |r|
      ensures r[i].adoptAs.Some? && IsNextFree(r[i].adoptAs.value, r[i].name, reserved + OfferedNames(r[..i]))
    {
      assert r[..i] == if i < |cs| then cs[..i] else cs;
    }
  }

  lemma OfferOne(cs: seq<Candidate>, c: Candidate, name: string, reserved: set<string>)
    requires Offered(cs, reserved) && IsNextFree(name, c.name, reserved + OfferedNames(cs)) && c.adoptAs == None
    ensures Offered(cs + [c.(adoptAs := Some(name))], reserved)
    ensures OfferedNames(cs + [c.(adoptAs := Some(name))]) == OfferedNames(cs) + {name}
    ensures Unoffered(cs + [c.(adoptAs := Some(name))]) == Unoffered(cs) + [c]
  {
    OfferKeeps(cs, c.(adoptAs := Some(name)), reserved);
  }

  lemma NextOfKind(cands: seq<Candidate>, canonical: map<string, Server>, k: Kind, i: nat)
    requires i < |cands|
    ensures OfKind(cands[..i + 1], canonical, k) ==
            OfKind(cands[..i], canonical, k) + if KindOf(cands[i], canonical) == k then [cands[i]] else []
  {
    assert cands[..i + 1][..i] == cands[..i];
  }

  lemma NextOfKinds(cands: seq<Candidate>, canonical: map<string, Server>, i: nat)
    requires i < |cands|
    ensures forall k :: OfKind(cands[..i + 1], canonical, k) ==
              OfKind(cands[..i], canonical, k) + (if KindOf(cands[i], canonical) == k then [cands[i]] else [])
  {
    forall k ensures OfKind(cands[..i + 1], canonical, k) ==
              OfKind(cands[..i], canonical, k) + (if KindOf(cands[i], canonical) == k then [cands[i]] else [])
    {
      NextOfKind(cands, canonical, k, i);
    }
  }

  method Classify(cands: seq<Candidate>, canonical: map<string, Server>) returns (plan: Plan)
    requires forall i :: 0 <= i < |cands| ==> cands[i].adoptAs == None
    ensures Classified(plan, cands, canonical)
  {
    ghost var reserved := Reserved(cands, canonical);
    var added, already, conflicts: seq<Candidate> := [], [], [];
    var taken := Reserved(cands, canonical);
    for i := 0 to |cands|
      invariant added == OfKind(cands[..i], canonical, New)
      invariant already == OfKind(cands[..i], canonical, Already)
      invariant Unoffered(conflicts) == OfKind(cands[..i], canonical, Conflict)
      invariant Offered(conflicts, reserved)
      invariant taken == reserved + OfferedNames(conflicts)
    {
      var c := cands[i];
      NextOfKinds(cands, canonical, i);
      if c.name !in canonical {
        added := added + [c];
      } else if SameTransport(canonical[c.name].transport, c.server.transport) {
        already := already + [c];
      } else {
        var name := NextFree(c.name, taken);
        OfferOne(conflicts, c, name, reserved);
        taken := taken + {name};
        conflicts := conflicts + [c.(adoptAs := Some(name))];
      }
    }
    assert cands[..|cands|] == cands;
    plan := Plan(added, already, conflicts);
  }

  method AddClient(ghost es: seq<Entry>, source: (string, ClientRead), names: seq<string>,
                   canonical: map<string, Server>,
                   commandExists: string -> bool, cands: seq<Candidate>) returns (r: seq<Candidate>)
    requires forall n :: n in names ==> n in source.1.servers
    requires Planned(es, canonical, commandExists, cands)
    ensures Planned(es + EntriesOf(source, names), canonical, commandExists, r)
  {
    r := cands;
    ghost var all := EntriesOf(source, names);
    assert es + all[..0] == es;
    for j := 0 to |names|
      invariant Planned(es + all[..j], canonical, commandExists, r)
    {
      NextEntry(es, all, j);
      r := Consider(es + all[..j], EntryOf(source, names[j]), canonical, commandExists, r);
    }
    assert all[..|names|] == all;
  }

  lemma NextEntry(es: seq<Entry>, all: seq<Entry>, j: nat)
    requires j < |all|
    ensures es + all[..j] + [all[j]] == es + all[..j + 1]
  {
  }

  method PlanImport(sources: seq<(string, ClientRead)>, canonical: map<string, Server>, commandExists: string -> bool)
    returns (plan: Plan, ghost cands: seq<Candidate>)
    ensures Planned(Entries(sources), canonical, commandExists, cands)
    ensures Classified(plan, cands, canonical)
  {
    var candidates: seq<Candidate> := [];
    for i := 0 to |sources|
      invariant Planned(Entries(sources[..i]), canonical, commandExists, candidates)
    {
      var names := SortedKeys(sources[i].1.servers.Keys);
      candidates := AddClient(Entries(sources[..i]), sources[i], names, canonical, commandExists, candidates);
      assert sources[..i + 1][..i] == sources[..i];
    }
    assert sources[..|sources|] == sources;
    cands := candidates;
    plan := Classify(candidates, canonical);
  }

  // ---- what the plan guarantees ----

  /** Each entry is folded into one candidate and no other. */
  lemma ExactlyOneCandidate(es: seq<Entry>, cands: seq<Candidate>, commandExists: string -> bool, e: Entry)
    requires Covers(es, cands, commandExists) && e in es
    ensures exists i :: 0 <= i < |cands| && (e.client, e.name) in cands[i].origins
              && SameTransport(cands[i].server.transport, e.server.transport)
              && forall j :: 0 <= j < |cands| && SameTransport(cands[j].server.transport, e.server.transport) ==> j == i
  {
    var n :| 0 <= n < |es| && es[n] == e;
    var i :| 0 <= i < |cands| && SameTransport(cands[i].server.transport, es[n].server.transport);
    var k := Class(es, cands[i].server.transport);
    ClassMembers(es, cands[i].server.transport, e);
    var m :| 0 <= m < |k| && k[m] == e;
    assert cands[i].origins[m] == (e.client, e.name);
    forall j | 0 <= j < |cands| && SameTransport(cands[j].server.transport, e.server.transport) ensures j == i {
      OnlyOne(cands, e.server.transport, i, j);
    }
  }

  /** No client and entry name comes twice. */
  ghost predicate UniqueOrigins(es: seq<Entry>) {
    forall i, j :: 0 <= i < j < |es| ==> (es[i].client, es[i].name) != (es[j].client, es[j].name)
  }

  ghost predicate DistinctClients(sources: seq<(string, ClientRead)>) {
    forall i, j :: 0 <= i < j < |sources| ==> sources[i].0 != sources[j].0
  }

  lemma ClientOrigins(source: (string, ClientRead), names: seq<string>)
    requires Sorted(names) && forall n :: n in names ==> n in source.1.servers
    ensures UniqueOrigins(EntriesOf(source, names))
    ensures forall e :: e in EntriesOf(source, names) ==> e.client == source.0
  {
    forall i, j | 0 <= i < j < |names| ensures names[i] != names[j] { LessAsymmetric(names[i], names[j]); }
  }

  /** The entries of clients of different names: those of one client have different names. */
  lemma {:induction false} EntriesAreDistinct(sources: seq<(string, ClientRead)>)
    requires DistinctClients(sources)
    ensures UniqueOrigins(Entries(sources))
    ensures forall e :: e in Entries(sources) ==> exists i :: 0 <= i < |sources| && e.client == sources[i].0
  {
    if sources != [] {
      var n := |sources| - 1;
      var last := sources[n];
      var before, own := Entries(sources[..n]), EntriesOf(last, SortedKeys(last.1.servers.Keys));
      EntriesAreDistinct(sources[..n]);
      ClientOrigins(last, SortedKeys(last.1.servers.Keys));
      forall e | e in before ensures exists i :: 0 <= i < n && e.client == sources[i].0 {
        var i :| 0 <= i < n && e.client == sources[..n][i].0;
        assert e.client == sources[i].0;
      }
      forall i, j | 0 <= i < |before| <= j < |before + own| ensures before[i].client != (before + own)[j].client {
        assert before[i] in before && own[j - |before|] in own;
      }
    }
  }

  /** So no other candidate lists it, whatever server that one addresses. */
  lemma OnlyItsCandidate(sources: seq<(string, ClientRead)>, cands: seq<Candidate>, commandExists: string -> bool,
                         e: Entry)
    requires DistinctClients(sources) && Covers(Entries(sources), cands, commandExists) && e in Entries(sources)
    ensures exists i :: 0 <= i < |cands| && (e.client, e.name) in cands[i].origins
              && forall j :: 0 <= j < |cands| && (e.client, e.name) in cands[j].origins ==> j == i
  {
    var es := Entries(sources);
    EntriesAreDistinct(sources);
    ExactlyOneCandidate(es, cands, commandExists, e);
    var i :| 0 <= i < |cands| && (e.client, e.name) in cands[i].origins
      && forall j :: 0 <= j < |cands| && SameTransport(cands[j].server.transport, e.server.transport) ==> j == i;
    forall j | 0 <= j < |cands| && (e.client, e.name) in cands[j].origins ensures j == i {
      ListedAddresses(es, cands[j], commandExists, e);
    }
  }

  lemma ListedAddresses(es: seq<Entry>, c: Candidate, commandExists: string -> bool, e: Entry)
    requires UniqueOrigins(es) && e in es && Describes(c, es, commandExists) && (e.client, e.name) in c.origins
    ensures SameTransport(c.server.transport, e.server.transport)
  {
    var k := Class(es, c.server.transport);
    var m :| 0 <= m < |k| && OriginsOf(k)[m] == (e.client, e.name);
    ClassMembers(es, c.server.transport, k[m]);
    var a :| 0 <= a < |es| && es[a] == k[m];
    var b :| 0 <= b < |es| && es[b] == e;
  }

  /** A candidate is enabled exactly if every client has it enabled and its command is there. */
  lemma NothingIsEnabledUnnoticed(es: seq<Entry>, cands: seq<Candidate>, commandExists: string -> bool, i: nat)
    requires Covers(es, cands, commandExists) && i < |cands|
    ensures var t := cands[i].server.transport;
            cands[i].server.enabled <==>
              (forall e :: e in es && SameTransport(t, e.server.transport) ==> e.server.enabled)
              && (t.Stdio? ==> commandExists(t.command))
  {
    var t := cands[i].server.transport;
    var k := Class(es, t);
    forall e ensures e in k <==> e in es && SameTransport(t, e.server.transport) { ClassMembers(es, t, e); }
    assert AllEnabled(k) <==> forall e :: e in k ==> e.server.enabled;
  }

  /** It carries every tag any of them gave it, and no other. */
  lemma NoTagIsLost(es: seq<Entry>, cands: seq<Candidate>, commandExists: string -> bool, i: nat, tag: string)
    requires Covers(es, cands, commandExists) && i < |cands|
    ensures tag in cands[i].server.tags <==>
              exists e :: e in es && SameTransport(cands[i].server.transport, e.server.transport)
                          && tag in e.server.tags
  {
    var t := cands[i].server.transport;
    var k := Class(es, t);
    forall e ensures e in k <==> e in es && SameTransport(t, e.server.transport) { ClassMembers(es, t, e); }
    TagInClass(k, tag);
  }

  lemma TagInClass(k: seq<Entry>, tag: string)
    ensures tag in Union(TagsOf(k)) <==> exists e :: e in k && tag in e.server.tags
  {
    UnionMembers(TagsOf(k), tag);
    if e :| e in k && tag in e.server.tags {
      var j :| 0 <= j < |k| && k[j] == e;
      assert tag in TagsOf(k)[j];
    }
    if j :| 0 <= j < |k| && tag in TagsOf(k)[j] {
      assert k[j] in k && tag in k[j].server.tags;
    }
  }

  function AllOrigins(cands: seq<Candidate>): multiset<Origin> {
    if cands == [] then multiset{}
    else AllOrigins(cands[..|cands| - 1]) + multiset(cands[|cands| - 1].origins)
  }

  function ClassOrigins(es: seq<Entry>, ts: seq<Transport>): multiset<Origin> {
    if ts == [] then multiset{}
    else ClassOrigins(es, ts[..|ts| - 1]) + multiset(OriginsOf(Class(es, ts[|ts| - 1])))
  }

  ghost predicate Listed(ts: seq<Transport>, t: Transport) {
    exists i :: 0 <= i < |ts| && SameTransport(ts[i], t)
  }

  ghost predicate Distinct(ts: seq<Transport>) {
    forall i, j :: 0 <= i < j < |ts| ==> !SameTransport(ts[i], ts[j])
  }

  lemma ListedLast(ts: seq<Transport>, t: Transport)
    requires ts != [] && Distinct(ts)
    ensures var n := |ts| - 1;
            if SameTransport(ts[n], t) then Listed(ts, t) && !Listed(ts[..n], t)
            else Listed(ts, t) == Listed(ts[..n], t)
  {
    var n := |ts| - 1;
    if SameTransport(ts[n], t) {
      forall i | 0 <= i < n ensures !SameTransport(ts[..n][i], t) {
        SameTransportIsAnEquivalence(ts[i], t, ts[n]);
        SameTransportIsAnEquivalence(ts[n], t, ts[i]);
      }
    } else if Listed(ts, t) {
      var i :| 0 <= i < |ts| && SameTransport(ts[i], t);
      assert SameTransport(ts[..n][i], t);
    }
  }

  function Single(yes: bool, e: Entry): multiset<Origin> {
    if yes then multiset{(e.client, e.name)} else multiset{}
  }

  lemma OneMoreInClass(es: seq<Entry>, e: Entry, t: Transport)
    ensures multiset(OriginsOf(Class(es + [e], t))) ==
            multiset(OriginsOf(Class(es, t))) + Single(SameTransport(t, e.server.transport), e)
  {
    if SameTransport(t, e.server.transport) {
      assert OriginsOf(Class(es, t) + [e]) == OriginsOf(Class(es, t)) + [(e.client, e.name)];
    } else {
      OtherClass(es, e, t);
    }
  }

  lemma {:induction false} OneMore(es: seq<Entry>, e: Entry, ts: seq<Transport>)
    requires Distinct(ts)
    ensures ClassOrigins(es + [e], ts) == ClassOrigins(es, ts) + Single(Listed(ts, e.server.transport), e)
  {
    if ts != [] {
      var n := |ts| - 1;
      OneMore(es, e, ts[..n]);
      ListedLast(ts, e.server.transport);
      OneMoreInClass(es, e, ts[n]);
      calc {
        ClassOrigins(es + [e], ts);
        ClassOrigins(es + [e], ts[..n]) + multiset(OriginsOf(Class(es + [e], ts[n])));
        ClassOrigins(es, ts) + Single(Listed(ts, e.server.transport), e);
      }
    }
  }

  lemma {:induction false} NoEntries(ts: seq<Transport>)
    ensures ClassOrigins([], ts) == multiset{}
  {
    if ts != [] { NoEntries(ts[..|ts| - 1]); }
  }

  ghost predicate AllListed(es: seq<Entry>, ts: seq<Transport>) {
    forall i :: 0 <= i < |es| ==> Listed(ts, es[i].server.transport)
  }

  lemma OriginsOneMore(es: seq<Entry>, e: Entry)
    ensures multiset(OriginsOf(es + [e])) == multiset(OriginsOf(es)) + Single(true, e)
  {
    assert OriginsOf(es + [e]) == OriginsOf(es) + [(e.client, e.name)];
  }

  lemma Split(es: seq<Entry>)
    requires es != []
    ensures es == es[..|es| - 1] + [es[|es| - 1]]
  {
  }

  lemma {:induction false} ClassesPartition(es: seq<Entry>, ts: seq<Transport>)
    requires Distinct(ts) && AllListed(es, ts)
    ensures ClassOrigins(es, ts) == multiset(OriginsOf(es))
  {
    if es == [] {
      NoEntries(ts);
    } else {
      var before, e := es[..|es| - 1], es[|es| - 1];
      Split(es);
      ClassesPartition(before, ts);
      OneMore(before, e, ts);
      OriginsOneMore(before, e);
    }
  }

  function Transports(cands: seq<Candidate>): seq<Transport> {
    seq(|cands|, i requires 0 <= i < |cands| => cands[i].server.transport)
  }

  lemma LastOrigins(es: seq<Entry>, cands: seq<Candidate>)
    requires cands != [] && cands[|cands| - 1].origins == OriginsOf(Class(es, cands[|cands| - 1].server.transport))
    ensures var n := |cands| - 1;
            Transports(cands)[..n] == Transports(cands[..n])
            && ClassOrigins(es, Transports(cands))
               == ClassOrigins(es, Transports(cands[..n])) + multiset(cands[n].origins)
  {
    assert Transports(cands)[..|cands| - 1] == Transports(cands[..|cands| - 1]);
  }

  lemma {:induction false} OriginsByClass(es: seq<Entry>, cands: seq<Candidate>)
    requires forall i :: 0 <= i < |cands| ==> cands[i].origins == OriginsOf(Class(es, cands[i].server.transport))
    ensures AllOrigins(cands) == ClassOrigins(es, Transports(cands))
  {
    if cands != [] {
      OriginsByClass(es, cands[..|cands| - 1]);
      LastOrigins(es, cands);
    }
  }

  /** Nothing is lost and nothing is counted twice: the origins of all candidates together are
      the entries of all clients together. */
  lemma OriginsAreConserved(es: seq<Entry>, cands: seq<Candidate>, commandExists: string -> bool)
    requires Covers(es, cands, commandExists)
    ensures AllOrigins(cands) == multiset(OriginsOf(es))
  {
    var ts := Transports(cands);
    forall j | 0 <= j < |es| ensures Listed(ts, es[j].server.transport) {
      var i :| 0 <= i < |cands| && SameTransport(cands[i].server.transport, es[j].server.transport);
      assert SameTransport(ts[i], es[j].server.transport);
    }
    assert forall i :: 0 <= i < |cands| ==> Describes(cands[i], es, commandExists);
    OriginsByClass(es, cands);
    ClassesPartition(es, ts);
  }

  /** All names are valid and distinct, and a name is changed exactly when it has to be. */
  lemma NamesAreSeparate(cands: seq<Candidate>, canonical: map<string, Server>)
    requires Named(Titles(cands), canonical)
    ensures forall i :: 0 <= i < |cands| ==> ValidName(cands[i].name)
    ensures forall i, j :: 0 <= i < j < |cands| ==> cands[i].name != cands[j].name
    ensures forall i :: 0 <= i < |cands| ==> (cands[i].renamed <==> cands[i].name != TitleOf(cands[i]).original)
  {
    var ts := Titles(cands);
    forall i | 0 <= i < |cands|
      ensures ValidName(cands[i].name) && cands[i].name !in NamesOf(ts[..i])
      ensures cands[i].renamed <==> cands[i].name != ts[i].original
    {
      assert NamedWell(ts[i], canonical, ts[..i]);
    }
    forall i, j | 0 <= i < j < |cands| ensures cands[i].name != cands[j].name {
      assert ts[..j][i] == ts[i] && ts[i] in ts[..j];
      assert ts[i].name in NamesOf(ts[..j]);
    }
  }

  /** A renamed candidate never meets a canonical entry, so it is always imported as new. */
  lemma RenamedIsNew(cands: seq<Candidate>, canonical: map<string, Server>, plan: Plan, c: Candidate)
    requires Named(Titles(cands), canonical) && Classified(plan, cands, canonical)
    requires c in cands && c.renamed
    ensures c in plan.added
  {
    NamesAreSeparate(cands, canonical);
    var i :| 0 <= i < |cands| && cands[i] == c;
    var ts := Titles(cands);
    assert NamedWell(ts[i], canonical, ts[..i]);
    assert c.name !in canonical;
  }

  /** The second names offered are valid and differ from each other, from every canonical name
      and from every name in the plan. */
  lemma OffersAreSeparate(cands: seq<Candidate>, canonical: map<string, Server>, plan: Plan)
    requires Named(Titles(cands), canonical) && Classified(plan, cands, canonical)
    ensures forall i :: 0 <= i < |plan.conflicts| ==>
              var name := plan.conflicts[i].adoptAs;
              name.Some? && ValidName(name.value) && name.value !in canonical
              && forall c :: c in cands ==> c.name != name.value
    ensures forall i, j :: 0 <= i < j < |plan.conflicts| ==> plan.conflicts[i].adoptAs != plan.conflicts[j].adoptAs
  {
    NamesAreSeparate(cands, canonical);
    var cs := plan.conflicts;
    forall c | c in cands ensures c.name in Reserved(cands, canonical) {
      var i :| 0 <= i < |cands| && cands[i] == c;
      assert Titles(cands)[i] in Titles(cands);
    }
    forall i | 0 <= i < |cs| ensures ValidName(cs[i].adoptAs.value) {
      assert Unoffered(cs)[i] in OfKind(cands, canonical, Conflict);
      assert ValidName(cs[i].name);
      var k: nat :| k >= 1 && cs[i].adoptAs.value == Suffixed(cs[i].name, k);
      SuffixedValid(cs[i].name, k);
    }
    forall i, j | 0 <= i < j < |cs| ensures cs[i].adoptAs != cs[j].adoptAs {
      assert cs[..j][i] == cs[i] && cs[i] in cs[..j];
      assert cs[i].adoptAs.value in OfferedNames(cs[..j]);
    }
  }

  // ---- the plan, read off the clients' entries ----

  /** Every server of every client is an entry, with the messages of the problems that name it. */
  ghost predicate Read(sources: seq<(string, ClientRead)>, e: Entry) {
    exists i :: 0 <= i < |sources| && ReadFrom(sources[i], e)
  }

  ghost predicate ReadFrom(source: (string, ClientRead), e: Entry) {
    && e.client == source.0 && e.name in source.1.servers && e.server == source.1.servers[e.name]
    && e.notes == NotesFor(source.1.problems, e.name)
  }

  lemma EntriesFrom(source: (string, ClientRead), names: seq<string>, e: Entry)
    requires forall n :: n in names <==> n in source.1.servers
    ensures e in EntriesOf(source, names) <==> ReadFrom(source, e)
  {
    if ReadFrom(source, e) {
      var k :| 0 <= k < |names| && names[k] == e.name;
      assert EntriesOf(source, names)[k] == e;
    }
  }

  lemma ReadOneMore(sources: seq<(string, ClientRead)>, e: Entry)
    requires sources != []
    ensures var n := |sources| - 1;
            Read(sources, e) <==> Read(sources[..n], e) || ReadFrom(sources[n], e)
  {
    var n := |sources| - 1;
    if i :| 0 <= i < |sources| && ReadFrom(sources[i], e) {
      if i < n { assert ReadFrom(sources[..n][i], e); }
    }
    if i :| 0 <= i < n && ReadFrom(sources[..n][i], e) { assert ReadFrom(sources[i], e); }
  }

  lemma {:induction false} EntriesAreRead(sources: seq<(string, ClientRead)>, e: Entry)
    ensures e in Entries(sources) <==> Read(sources, e)
  {
    if sources != [] {
      var n := |sources| - 1;
      EntriesAreRead(sources[..n], e);
      EntriesFrom(sources[n], SortedKeys(sources[n].1.servers.Keys), e);
      ReadOneMore(sources, e);
    }
  }

  lemma {:induction false} NotesAreMessages(problems: seq<Problem>, name: string, note: string)
    ensures note in NotesFor(problems, name) <==>
              exists i :: 0 <= i < |problems| && problems[i] == Problem(Some(name), note)
  {
    if problems != [] {
      var n := |problems| - 1;
      NotesAreMessages(problems[..n], name, note);
      if i :| 0 <= i < n && problems[i] == Problem(Some(name), note) { assert problems[..n][i] == problems[i]; }
    }
  }

  lemma NoteInClass(k: seq<Entry>, note: string)
    ensures note in Union(NotesOf(k)) <==> exists e :: e in k && note in e.notes
  {
    UnionMembers(NotesOf(k), note);
    if e :| e in k && note in e.notes {
      var j :| 0 <= j < |k| && k[j] == e;
      assert note in NotesOf(k)[j];
    }
    if j :| 0 <= j < |k| && note in NotesOf(k)[j] {
      assert k[j] in k && note in k[j].notes;
    }
  }

  /** A candidate carries the notes of all the entries it stands for, and no other. */
  lemma NoNoteIsLost(es: seq<Entry>, cands: seq<Candidate>, commandExists: string -> bool, i: nat, note: string)
    requires Covers(es, cands, commandExists) && i < |cands|
    ensures note in cands[i].notes <==>
              exists e :: e in es && SameTransport(cands[i].server.transport, e.server.transport) && note in e.notes
  {
    var t := cands[i].server.transport;
    var k := Class(es, t);
    forall e ensures e in k <==> e in es && SameTransport(t, e.server.transport) { ClassMembers(es, t, e); }
    NoteInClass(k, note);
  }

  /** A candidate whose name is free is added, one whose name stands for the same server is there
      already, and one whose name stands for another is a conflict. */
  lemma WhichList(plan: Plan, cands: seq<Candidate>, canonical: map<string, Server>, c: Candidate)
    requires Classified(plan, cands, canonical) && c in cands && c.adoptAs == None
    ensures c in plan.added <==> c.name !in canonical
    ensures c in plan.already <==>
              c.name in canonical && SameTransport(canonical[c.name].transport, c.server.transport)
    ensures (exists d :: d in plan.conflicts && d.(adoptAs := None) == c) <==>
              c.name in canonical && !SameTransport(canonical[c.name].transport, c.server.transport)
  {
    var cs := plan.conflicts;
    forall i | 0 <= i < |cs| ensures Unoffered(cs)[i] == cs[i].(adoptAs := None) {}
    if c in Unoffered(cs) {
      var i :| 0 <= i < |cs| && Unoffered(cs)[i] == c;
      assert cs[i] in cs;
    }
    if d :| d in cs && d.(adoptAs := None) == c {
      var i :| 0 <= i < |cs| && cs[i] == d;
      assert Unoffered(cs)[i] == c;
    }
  }

  /** Each list is in the order of the candidates. */
  lemma {:induction false} KindsInOrder(cands: seq<Candidate>, canonical: map<string, Server>, k: Kind, i: nat, j: nat)
    requires i < j < |OfKind(cands, canonical, k)|
    ensures exists a, b :: 0 <= a < b < |cands| && cands[a] == OfKind(cands, canonical, k)[i]
                           && cands[b] == OfKind(cands, canonical, k)[j]
  {
    var n := |cands| - 1;
    var before := OfKind(cands[..n], canonical, k);
    if j < |before| {
      KindsInOrder(cands[..n], canonical, k, i, j);
      var a, b :| 0 <= a < b < n && cands[..n][a] == before[i] && cands[..n][b] == before[j];
      assert cands[a] == before[i] && cands[b] == before[j];
    } else {
      assert before[i] in cands[..n];
      var a :| 0 <= a < n && cands[..n][a] == before[i];
      assert cands[a] == before[i] && cands[n] == OfKind(cands, canonical, k)[j];
    }
  }

  lemma {:induction false} NoOther(t: Transport, ts: seq<Title>)
    requires FirstOther(t, ts).None?
    ensures forall j :: 0 <= j < |ts| ==> !OtherCredentials(t, ts[j].transport)
  {
    if ts != [] {
      NoOther(t, ts[1..]);
      forall j | 0 < j < |ts| ensures !OtherCredentials(t, ts[j].transport) { assert ts[j] == ts[1..][j - 1]; }
    }
  }

  lemma {:induction false} FirstOtherAt(t: Transport, ts: seq<Title>) returns (j: nat)
    requires FirstOther(t, ts).Some?
    ensures j < |ts| && FirstOther(t, ts).value == SameAddress(ts[j].name, false)
    ensures OtherCredentials(t, ts[j].transport)
    ensures forall k :: 0 <= k < j ==> !OtherCredentials(t, ts[k].transport)
  {
    if OtherCredentials(t, ts[0].transport) {
      j := 0;
    } else {
      var i := FirstOtherAt(t, ts[1..]);
      j := i + 1;
      forall k | 0 < k < j ensures !OtherCredentials(t, ts[k].transport) { assert ts[k] == ts[1..][k - 1]; }
    }
  }

  /** A candidate points at the server it shares an address with under other credentials: the first
      canonical name of one, else the first candidate before it that is one, else none. */
  lemma PointsAt(cands: seq<Candidate>, canonical: map<string, Server>, i: nat)
    requires Named(Titles(cands), canonical) && i < |cands|
    ensures var t := cands[i].server.transport;
            match cands[i].sameAddress
            case None =>
              && (forall n :: n in canonical ==> !OtherCredentials(t, canonical[n].transport))
              && forall j :: 0 <= j < i ==> !OtherCredentials(t, cands[j].server.transport)
            case Some(SameAddress(name, true)) =>
              && name in canonical && OtherCredentials(t, canonical[name].transport)
              && forall n :: n in canonical && OtherCredentials(t, canonical[n].transport) ==>
                               n == name || Less(name, n)
            case Some(SameAddress(name, false)) =>
              && (forall n :: n in canonical ==> !OtherCredentials(t, canonical[n].transport))
              && exists j :: 0 <= j < i && name == cands[j].name && OtherCredentials(t, cands[j].server.transport)
                             && forall k :: 0 <= k < j ==> !OtherCredentials(t, cands[k].server.transport)
  {
    var ts, t := Titles(cands), cands[i].server.transport;
    assert NamedWell(ts[i], canonical, ts[..i]);
    forall j | 0 <= j < i ensures ts[..i][j] == TitleOf(cands[j]) {}
    if FirstOther(t, ts[..i]).None? {
      NoOther(t, ts[..i]);
    } else {
      var j := FirstOtherAt(t, ts[..i]);
      assert ts[..i][j].name == cands[j].name;
    }
    var known := set n | n in canonical && OtherCredentials(t, canonical[n].transport);
    assert forall n :: n in known <==> n in canonical && OtherCredentials(t, canonical[n].transport);
  }

  /** Whether a candidate before this one, or a canonical server of another name, is called `name`. */
  ghost predicate InUse(cands: seq<Candidate>, canonical: map<string, Server>, i: nat, original: string, name: string)
    requires i <= |cands|
  {
    (exists j :: 0 <= j < i && cands[j].name == name) || (name in canonical && name != original)
  }

  /** A renamed candidate is called by its entry's own name, made valid if it was not, or by that name
      with the first number from 2 on, whichever is the first not in use. */
  lemma CalledAfter(cands: seq<Candidate>, canonical: map<string, Server>, i: nat)
    requires Named(Titles(cands), canonical) && i < |cands|
    ensures var original := TitleOf(cands[i]).original;
            var base := if ValidName(original) then original else Slug(original);
            cands[i].renamed ==>
              && !InUse(cands, canonical, i, original, cands[i].name)
              && exists k: nat :: k >= 1 && cands[i].name == (if k == 1 then base else base + "-" + Decimal(k))
                   && (k > 1 ==> InUse(cands, canonical, i, original, base))
                   && forall l :: 2 <= l < k ==> InUse(cands, canonical, i, original, base + "-" + Decimal(l))
  {
    var ts := Titles(cands);
    assert NamedWell(ts[i], canonical, ts[..i]);
    var original := ts[i].original;
    forall name ensures name in Taken(original, canonical, ts[..i]) <==> InUse(cands, canonical, i, original, name) {
      InUseIsTaken(cands, canonical, i, original, name);
    }
    if cands[i].renamed {
      var base := Base(original);
      var k: nat :| k >= 1 && cands[i].name == Suffixed(base, k)
                    && forall l :: 1 <= l < k ==> Suffixed(base, l) in Taken(original, canonical, ts[..i]);
      if k > 1 { assert Suffixed(base, 1) == base; }
      forall l | 2 <= l < k ensures InUse(cands, canonical, i, original, base + "-" + Decimal(l)) {
        assert Suffixed(base, l) == base + "-" + Decimal(l);
      }
    }
  }

  lemma InUseIsTaken(cands: seq<Candidate>, canonical: map<string, Server>, i: nat, original: string, name: string)
    requires i <= |cands|
    ensures name in Taken(original, canonical, Titles(cands)[..i]) <==> InUse(cands, canonical, i, original, name)
  {
    var ts := Titles(cands);
    if j :| 0 <= j < i && cands[j].name == name { assert ts[..i][j].name == name && ts[..i][j] in ts[..i]; }
    if t :| t in ts[..i] && t.name == name {
      var j :| 0 <= j < i && ts[..i][j] == t;
      assert cands[j].name == name;
    }
  }
}
