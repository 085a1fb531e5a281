/** The record of which entries mcpgw owns in which file, and a whole sync of one file. */
module ManagedState {
  import opened Common
  import opened Text
  import opened Servers
  import opened Sync
  import opened ClientNames

  datatype FileRecord = FileRecord(client: string, managed: set<string>, resolved: map<string, string>)

  /** A client's per-user file, or a repository's file under its normalised path. */
  datatype Scope = Home(kind: string) | Project(kind: string, path: string)

  /** Whether two scopes share a record: per-user files by client, project files by path alone. */
  predicate SameFile(a: Scope, b: Scope) {
    if a.Home? then a == b else b.Project? && a.path == b.path
  }

  lemma SharedRecords(k: string, l: string, p: string, q: string)
    ensures SameFile(Home(k), Home(l)) <==> k == l
    ensures SameFile(Project(k, p), Project(l, q)) <==> p == q
    ensures !SameFile(Home(k), Project(l, q)) && !SameFile(Project(k, p), Home(l))
  {
  }

  // ---- origin keys ----

  function OriginKey(s: Scope): string {
    match s case Home(kind) => kind case Project(kind, path) => kind + "@" + path
  }

  function FromOrigin(key: string, known: set<string>): Option<Scope> {
    var at := Find(key, {'@'});
    if at == |key| then (if key in known then Some(Home(key)) else None)
    else if key[..at] in known then Some(Project(key[..at], key[at + 1..]))
    else None
  }

  /** An origin key names one scope, whatever its path holds: no client id contains an `@`. */
  lemma OriginRoundTrip(s: Scope, known: set<string>)
    requires s.kind in known && forall id :: id in known ==> '@' !in id
    ensures FromOrigin(OriginKey(s), known) == Some(s)
  {
    if s.Home? {
      FindAfter(s.kind, "", {'@'});
      assert s.kind + "" == s.kind;
    } else {
      FindAfter(s.kind, "@" + s.path, {'@'});
      assert OriginKey(s) == s.kind + ("@" + s.path);
      assert OriginKey(s)[..|s.kind|] == s.kind && OriginKey(s)[|s.kind| + 1..] == s.path;
    }
  }

  lemma OriginKeysDiffer(a: Scope, b: Scope, known: set<string>)
    requires a.kind in known && b.kind in known && forall id :: id in known ==> '@' !in id
    ensures OriginKey(a) == OriginKey(b) <==> a == b
  {
    OriginRoundTrip(a, known);
    OriginRoundTrip(b, known);
  }

  // ---- the record ----

  class State {
    var clients: map<string, set<string>>
    var resolved: map<string, map<string, string>>
    var files: map<string, FileRecord>

    constructor ()
      ensures clients == map[] && resolved == map[] && files == map[]
      ensures forall s :: Managed(s) == {} && Resolved(s) == map[]
    {
      clients, resolved, files := map[], map[], map[];
    }

    /** The entry names mcpgw owns in a file. */
    function Managed(s: Scope): set<string>
      reads this
    {
      match s
      case Home(kind) => if kind in clients then clients[kind] else {}
      case Project(_, path) => if path in files then files[path].managed else {}
    }

    /** The canonical server each answered entry of a file stands for. */
    function Resolved(s: Scope): map<string, string>
      reads this
    {
      match s
      case Home(kind) => if kind in resolved then resolved[kind] else map[]
      case Project(_, path) => if path in files then files[path].resolved else map[]
    }

    /** The record a project scope has, with the scope's client written into it. */
    function RecordOf(kind: string, path: string): FileRecord
      reads this
    {
      if path in files then files[path].(client := kind) else FileRecord(kind, {}, map[])
    }

    method Claim(s: Scope, names: set<string>)
      modifies this
      ensures clients == (if s.Home? then old(clients)[s.kind := names] else old(clients))
      ensures resolved == old(resolved)
      ensures s.Home? ==> files == old(files)
      ensures s.Project? ==> files == old(files)[s.path := FileRecord(s.kind, names, old(Resolved(s)))]
      ensures Managed(s) == names
      ensures forall t :: !SameFile(s, t) ==> Managed(t) == old(Managed(t))
      ensures forall t :: Resolved(t) == old(Resolved(t))
    {
      match s
      case Home(kind) => clients := clients[kind := names];
      case Project(kind, path) => files := files[path := RecordOf(kind, path).(managed := names)];
    }

    method Adopt(s: Scope, name: string)
      modifies this
      ensures clients == (if s.Home? then old(clients)[s.kind := old(Managed(s)) + {name}] else old(clients))
      ensures resolved == old(resolved)
      ensures s.Home? ==> files == old(files)
      ensures s.Project? ==>
                files == old(files)[s.path := FileRecord(s.kind, old(Managed(s)) + {name}, old(Resolved(s)))]
      ensures Managed(s) == old(Managed(s)) + {name}
      ensures forall t :: !SameFile(s, t) ==> Managed(t) == old(Managed(t))
      ensures forall t :: Resolved(t) == old(Resolved(t))
    {
      match s
      case Home(kind) => clients := clients[kind := Managed(s) + {name}];
      case Project(kind, path) =>
        var record := RecordOf(kind, path);
        files := files[path := record.(managed := record.managed + {name})];
    }

    method ResolveTo(s: Scope, entry: string, canonical: string)
      modifies this
      ensures resolved ==
              (if s.Home? then old(resolved)[s.kind := old(Resolved(s))[entry := canonical]] else old(resolved))
      ensures clients == old(clients)
      ensures s.Home? ==> files == old(files)
      ensures s.Project? ==>
                files == old(files)[s.path := FileRecord(s.kind, old(Managed(s)), old(Resolved(s))[entry := canonical])]
      ensures Resolved(s) == old(Resolved(s))[entry := canonical]
      ensures forall t :: !SameFile(s, t) ==> Resolved(t) == old(Resolved(t))
      ensures forall t :: Managed(t) == old(Managed(t))
    {
      match s
      case Home(kind) => resolved := resolved[kind := Resolved(s)[entry := canonical]];
      case Project(kind, path) =>
        var record := RecordOf(kind, path);
        files := files[path := record.(resolved := record.resolved[entry := canonical])];
    }
  }

  /** One sync of one file: plan under the client's names, write the document, record the claim. */
  method SyncFile(state: State, s: Scope, doc: Document, codec: Codec, canonical: map<string, Server>)
    returns (plan: Plan)
    modifies state, doc
    ensures var desired := Renamed(canonical, old(state.Resolved(s)));
            && doc.entries == Synced(codec, old(doc.entries), desired, old(state.Managed(s)))
            && state.Managed(s) == Target(old(doc.entries), desired, old(state.Managed(s)))
            && IsPlan(plan, codec, old(doc.entries), desired, old(state.Managed(s)))
    ensures forall t :: !SameFile(s, t) ==> state.Managed(t) == old(state.Managed(t))
    ensures forall t :: state.Resolved(t) == old(state.Resolved(t))
    ensures match old(doc.excluded)
            case None => doc.excluded == None && plan.unexclude == []
            case Some(l) =>
              doc.excluded == Some(Without(l, plan.unexclude)) && IsList(plan.unexclude, Unexcluded(plan, l))
  {
    var desired, _ := UnderClientNames(canonical, state.Resolved(s));
    var managed := state.Managed(s);
    ghost var before := doc.entries;
    plan := PlanSync(codec, doc.entries, desired, managed);
    plan := PlanClientContext(doc.excluded, plan);
    doc.Apply(plan);
    AppliedIsSynced(plan, codec, before, desired, managed, doc.entries);
    state.Claim(s, plan.desired.Keys);
  }

  /** One eject of one file: a file in which nothing is managed is passed over, one with nothing to
      change is left alone, any other is synced to the servers themselves. */
  method EjectFile(state: State, s: Scope, doc: Document, codec: Codec, canonical: map<string, Server>)
    modifies state, doc
    ensures var desired, managed := Renamed(canonical, old(state.Resolved(s))), old(state.Managed(s));
            doc.entries == if managed == {} then old(doc.entries) else Synced(codec, old(doc.entries), desired, managed)
    ensures forall t :: !SameFile(s, t) ==> state.Managed(t) == old(state.Managed(t))
    ensures forall t :: state.Resolved(t) == old(state.Resolved(t))
  {
    var managed := state.Managed(s);
    if managed == {} { return; }
    var desired, _ := UnderClientNames(canonical, state.Resolved(s));
    var plan := PlanSync(codec, doc.entries, desired, managed);
    plan := PlanClientContext(doc.excluded, plan);
    if !HasChanges(plan) {
      AppliedIsSynced(plan, codec, doc.entries, desired, managed, doc.entries);
      return;
    }
    var _ := SyncFile(state, s, doc, codec, canonical);
  }

  /** A gateway sync of a file and then an eject of it. */
  method SyncThenEject(state: State, s: Scope, doc: Document, codec: Codec, through: map<string, Server>,
                       canonical: map<string, Server>)
    modifies state, doc
    ensures doc.entries == Ejected(codec, old(doc.entries), Renamed(through, old(state.Resolved(s))),
                                   Renamed(canonical, old(state.Resolved(s))), old(state.Managed(s)))
  {
    var _ := SyncFile(state, s, doc, codec, through);
    EjectFile(state, s, doc, codec, canonical);
  }

  /** Running it again changes nothing: not the file, not the exclusion list, not the record. */
  method SyncTwice(state: State, s: Scope, doc: Document, codec: Codec, canonical: map<string, Server>)
    returns (first: Plan, second: Plan)
    modifies state, doc
    ensures !HasChanges(second)
    ensures second.conflicts == first.conflicts && second.foreign == first.foreign
    ensures doc.entries == Synced(codec, old(doc.entries), Renamed(canonical, old(state.Resolved(s))),
                                  old(state.Managed(s)))
    ensures state.Managed(s) == first.desired.Keys
  {
    ghost var desired, managed, before := Renamed(canonical, state.Resolved(s)), state.Managed(s), doc.entries;
    first := SyncFile(state, s, doc, codec, canonical);
    assert first.desired.Keys == Target(before, desired, managed);
    ghost var once := doc.entries;
    second := SyncFile(state, s, doc, codec, canonical);
    SyncIsAFixpoint(codec, before, desired, managed, first, second);
    SyncedTwice(codec, before, desired, managed);
    if old(doc.excluded).Some? {
      ExclusionIsSettled(first, second, old(doc.excluded).value);
      SortedUnique(second.unexclude, []);
    }
  }

  lemma SyncedTwice(codec: Codec, current: Entries, canonical: map<string, Server>, managed: set<string>)
    ensures var once := Synced(codec, current, canonical, managed);
            Synced(codec, once, canonical, Target(current, canonical, managed)) == once
  {
    var once := Synced(codec, current, canonical, managed);
    var owned := Target(current, canonical, managed);
    TargetAgain(codec, current, canonical, canonical, managed);
    forall n | n in owned ensures Wanted(codec, once, canonical, n) == once[n] {
      CarriedTwice(codec.preserved, Lookup(current, n), codec.emit(canonical[n]));
    }
    assert Synced(codec, once, canonical, owned).Keys == once.Keys;
  }
}
