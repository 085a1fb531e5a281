/** Mirroring the canonical servers into one client's file: what a sync plans, what applying it
    leaves alone, and what a second sync or an eject finds. */
module Sync {
  import opened Common
  import opened Text
  import opened Servers

  /** An entry in a client's file: an object of fields, or anything else a file may hold. */
  datatype Value = Object(fields: map<string, string>) | Other(text: string)

  type Entries = map<string, Value>

  /** How one client spells a server, and the fields of an entry that are the client's own. */
  datatype Codec = Codec(emit: Server -> Value, preserved: seq<string>)

  datatype Plan = Plan(adds: seq<string>, updates: seq<string>, removes: seq<string>, conflicts: seq<string>,
                       foreign: seq<string>, unexclude: seq<string>, desired: Entries)

  function Lookup(entries: Entries, name: string): Option<Value> {
    if name in entries then Some(entries[name]) else None
  }

  // ---- the client's own fields ----

  /** The emitted entry, and the client's own fields of the one on disk where it sets none. */
  function Carried(preserved: seq<string>, existing: Option<Value>, emitted: Value): Value {
    if existing.Some? && existing.value.Object? && emitted.Object? then
      var f := existing.value.fields;
      Object((map k | k in f.Keys && k in preserved && k !in emitted.fields :: f[k]) + emitted.fields)
    else
      emitted
  }

  method CarryOver(preserved: seq<string>, existing: Option<Value>, emitted: Value) returns (r: Value)
    ensures r == Carried(preserved, existing, emitted)
  {
    r := emitted;
    if preserved == [] {
      assert existing.Some? && existing.value.Object? && emitted.Object? ==>
          Carried(preserved, existing, emitted).fields == emitted.fields;
      return;
    }
    if existing.None? || existing.value.Other? || emitted.Other? { return; }
    var from, target := existing.value.fields, emitted.fields;
    for i := 0 to |preserved|
      invariant target == (map k | k in from.Keys && k in preserved[..i] && k !in emitted.fields :: from[k])
                + emitted.fields
    {
      var field := preserved[i];
      assert preserved[..i + 1] == preserved[..i] + [field];
      if field in from && field !in target { target := target[field := from[field]]; }
    }
    assert preserved[..|preserved|] == preserved;
    r := Object(target);
  }

  /** Carrying over from an entry that already carried changes nothing. */
  lemma CarriedTwice(preserved: seq<string>, existing: Option<Value>, emitted: Value)
    ensures Carried(preserved, Some(Carried(preserved, existing, emitted)), emitted)
            == Carried(preserved, existing, emitted)
  {
    var once := Carried(preserved, existing, emitted);
    if emitted.Object? {
      assert Carried(preserved, Some(once), emitted).fields == once.fields;
    }
  }

  // ---- what a plan is ----

  ghost predicate IsList(l: seq<string>, s: set<string>) {
    Sorted(l) && forall n :: n in l <==> n in s
  }

  function Enabled(canonical: map<string, Server>): set<string> {
    set n | n in canonical && canonical[n].enabled
  }

  /** Enabled servers whose name the client uses for an entry mcpgw never wrote. */
  function Conflicts(current: Entries, canonical: map<string, Server>, managed: set<string>): set<string> {
    Enabled(canonical) * (current.Keys - managed)
  }

  function Target(current: Entries, canonical: map<string, Server>, managed: set<string>): set<string> {
    Enabled(canonical) - Conflicts(current, canonical, managed)
  }

  function Wanted(codec: Codec, current: Entries, canonical: map<string, Server>, name: string): Value
    requires name in canonical
  {
    Carried(codec.preserved, Lookup(current, name), codec.emit(canonical[name]))
  }

  function Desired(codec: Codec, current: Entries, canonical: map<string, Server>, managed: set<string>): Entries {
    map n | n in Target(current, canonical, managed) :: Wanted(codec, current, canonical, n)
  }

  function Stale(codec: Codec, current: Entries, canonical: map<string, Server>, managed: set<string>): set<string> {
    set n | n in Target(current, canonical, managed) && n in current
            && current[n] != Wanted(codec, current, canonical, n)
  }

  /** Every name, in the one list it belongs to. */
  ghost predicate IsPlan(plan: Plan, codec: Codec, current: Entries, canonical: map<string, Server>,
                         managed: set<string>)
  {
    && plan.desired == Desired(codec, current, canonical, managed)
    && IsList(plan.adds, Target(current, canonical, managed) - current.Keys)
    && IsList(plan.updates, Stale(codec, current, canonical, managed))
    && IsList(plan.conflicts, Conflicts(current, canonical, managed))
    && IsList(plan.removes, (current.Keys * managed) - Enabled(canonical))
    && IsList(plan.foreign, current.Keys - managed - Enabled(canonical))
  }

  // ---- computing it ----

  lemma Append(l: seq<string>, s: set<string>, n: string)
    requires IsList(l, s) && forall m :: m in s ==> Less(m, n)
    ensures IsList(l + [n], s + {n})
  {
    forall i | 0 <= i < |l| ensures Less(l[i], n) { assert l[i] in l; }
  }

  /** What is in `s` of the names visited so far. */
  function Upto(names: seq<string>, i: nat, s: set<string>): set<string>
    requires i <= |names|
  {
    set n | n in s && n in names[..i]
  }

  lemma UptoStep(names: seq<string>, i: nat, s: set<string>, l: seq<string>)
    requires i < |names| && Sorted(names) && IsList(l, Upto(names, i, s))
    ensures names[i] in s ==> IsList(l + [names[i]], Upto(names, i + 1, s))
    ensures names[i] !in s ==> IsList(l, Upto(names, i + 1, s))
  {
    assert names[..i + 1] == names[..i] + [names[i]];
    if names[i] in s {
      forall m | m in Upto(names, i, s) ensures Less(m, names[i]) {
        var j :| 0 <= j < i && names[..i][j] == m;
      }
      Append(l, Upto(names, i, s), names[i]);
      assert Upto(names, i + 1, s) == Upto(names, i, s) + {names[i]};
    } else {
      assert Upto(names, i + 1, s) == Upto(names, i, s);
    }
  }

  lemma UptoAll(names: seq<string>, s: set<string>, l: seq<string>)
    requires IsList(l, Upto(names, |names|, s)) && forall n :: n in s ==> n in names
    ensures IsList(l, s)
  {
    assert names[..|names|] == names;
    assert Upto(names, |names|, s) == s;
  }

  ghost predicate Visited(l: seq<string>, names: seq<string>, i: nat, s: set<string>)
    requires i <= |names|
  {
    IsList(l, Upto(names, i, s))
  }

  /** The first pass: what to write. */
  method PlanWrites(codec: Codec, current: Entries, canonical: map<string, Server>, managed: set<string>,
                    names: seq<string>, ghost toAdd: set<string>, ghost stale: set<string>, ghost clashes: set<string>)
    returns (adds: seq<string>, updates: seq<string>, conflicts: seq<string>, desired: Entries)
    requires Sorted(names) && forall n :: n in names <==> n in canonical
    requires forall n :: n in toAdd <==> n in canonical && canonical[n].enabled && n !in current
    requires forall n :: n in clashes <==> n in canonical && canonical[n].enabled && n in current && n !in managed
    requires forall n :: n in stale <==>
                           n in canonical && canonical[n].enabled && n in current && n in managed
                           && current[n] != Wanted(codec, current, canonical, n)
    ensures IsList(adds, toAdd) && IsList(updates, stale) && IsList(conflicts, clashes)
    ensures forall n :: n in desired <==> n in canonical && canonical[n].enabled && (n in current ==> n in managed)
    ensures forall n :: n in desired ==> desired[n] == Wanted(codec, current, canonical, n)
  {
    adds, updates, conflicts, desired := [], [], [], map[];
    for i := 0 to |names|
      invariant Visited(adds, names, i, toAdd)
      invariant Visited(updates, names, i, stale)
      invariant Visited(conflicts, names, i, clashes)
      invariant forall n :: n in desired <==> n in names[..i] && canonical[n].enabled && (n in current ==> n in managed)
      invariant forall n :: n in desired ==> n in canonical && desired[n] == Wanted(codec, current, canonical, n)
    {
      var name := names[i];
      assert name in names && names[..i + 1] == names[..i] + [name];
      UptoStep(names, i, toAdd, adds);
      UptoStep(names, i, stale, updates);
      UptoStep(names, i, clashes, conflicts);
      if !canonical[name].enabled { continue; }
      var exists_ := name in current;
      if exists_ && name !in managed {
        conflicts := conflicts + [name];
        continue;
      }
      var emitted := CarryOver(codec.preserved, Lookup(current, name), codec.emit(canonical[name]));
      if !exists_ {
        adds := adds + [name];
      } else if current[name] != emitted {
        updates := updates + [name];
      }
      desired := desired[name := emitted];
    }
    UptoAll(names, toAdd, adds);
    UptoAll(names, stale, updates);
    UptoAll(names, clashes, conflicts);
    assert names[..|names|] == names;
  }

  /** The second pass: what is left of the client's own entries. */
  method PlanRest(current: Entries, managed: set<string>, desired: set<string>, conflicts: seq<string>,
                  names: seq<string>)
    returns (removes: seq<string>, foreign: seq<string>)
    requires Sorted(names) && forall n :: n in names <==> n in current
    ensures IsList(removes, set n | n in current && n !in desired && n !in conflicts && n in managed)
    ensures IsList(foreign, set n | n in current && n !in desired && n !in conflicts && n !in managed)
  {
    removes, foreign := [], [];
    ghost var gone := set n | n in current && n !in desired && n !in conflicts && n in managed;
    ghost var others := set n | n in current && n !in desired && n !in conflicts && n !in managed;
    for i := 0 to |names|
      invariant IsList(removes, Upto(names, i, gone))
      invariant IsList(foreign, Upto(names, i, others))
    {
      assert names[i] in names;
      UptoStep(names, i, gone, removes);
      UptoStep(names, i, others, foreign);
      if names[i] in desired || names[i] in conflicts { continue; }
      if names[i] in managed {
        removes := removes + [names[i]];
      } else {
        foreign := foreign + [names[i]];
      }
    }
    UptoAll(names, gone, removes);
    UptoAll(names, others, foreign);
  }

  method PlanNamed(codec: Codec, current: Entries, canonical: map<string, Server>, managed: set<string>,
                   servers: seq<string>, present: seq<string>) returns (plan: Plan)
    requires Sorted(servers) && forall n :: n in servers <==> n in canonical
    requires Sorted(present) && forall n :: n in present <==> n in current
    ensures IsPlan(plan, codec, current, canonical, managed) && plan.unexclude == []
  {
    ghost var toAdd := Target(current, canonical, managed) - current.Keys;
    ghost var stale := Stale(codec, current, canonical, managed);
    ghost var clashes := Conflicts(current, canonical, managed);
    var adds, updates, conflicts, desired :=
      PlanWrites(codec, current, canonical, managed, servers, toAdd, stale, clashes);
    var removes, foreign := PlanRest(current, managed, desired.Keys, conflicts, present);
    assert desired == Desired(codec, current, canonical, managed);
    plan := Plan(adds, updates, removes, conflicts, foreign, [], desired);
  }

  method PlanSync(codec: Codec, current: Entries, canonical: map<string, Server>, managed: set<string>)
    returns (plan: Plan)
    ensures IsPlan(plan, codec, current, canonical, managed) && plan.unexclude == []
  {
    plan := PlanNamed(codec, current, canonical, managed, SortedKeys(canonical.Keys), SortedKeys(current.Keys));
  }

  /** Names of the client's own exclusion list that mcpgw answers for. */
  function Unexcluded(plan: Plan, excluded: seq<string>): set<string> {
    set n | n in excluded && (n in plan.desired || n in plan.removes)
  }

  method PlanClientContext(excluded: Option<seq<string>>, plan: Plan) returns (r: Plan)
    ensures r == plan.(unexclude := r.unexclude)
    ensures match excluded
            case None => r.unexclude == plan.unexclude
            case Some(l) => IsList(r.unexclude, Unexcluded(plan, l))
                            && forall n :: n in r.unexclude <==> n in l && (n in plan.desired || n in plan.removes)
  {
    r := plan;
    if excluded.Some? { r := plan.(unexclude := SortedKeys(Unexcluded(plan, excluded.value))); }
  }

  // ---- applying it ----

  function Without(l: seq<string>, names: seq<string>): (r: seq<string>)
    ensures forall n :: n in r <==> n in l && n !in names
  {
    if l == [] then []
    else
      assert l == l[..|l| - 1] + [l[|l| - 1]];
      Without(l[..|l| - 1], names) + if l[|l| - 1] in names then [] else [l[|l| - 1]]
  }

  /** Each item of the list is looked at by itself, so what stays keeps its order and its number. */
  lemma {:induction false} WithoutItemByItem(a: seq<string>, b: seq<string>, names: seq<string>)
    ensures Without(a + b, names) == Without(a, names) + Without(b, names)
    decreases |b|
  {
    if b == [] {
      assert a + b == a;
    } else {
      var k := |b| - 1;
      assert (a + b)[..|a + b| - 1] == a + b[..k];
      WithoutItemByItem(a, b[..k], names);
    }
  }

  lemma WithoutOne(n: string, names: seq<string>)
    ensures Without([n], names) == if n in names then [] else [n]
  {
    assert [n][..0] == [];
  }

  ghost predicate Applied(plan: Plan, before: Entries, after: Entries) {
    && (forall n :: n in after <==> n in plan.adds || n in plan.updates || (n in before && n !in plan.removes))
    && forall n :: n in after ==>
         if n in plan.adds || n in plan.updates then n in plan.desired && after[n] == plan.desired[n]
         else n in before && after[n] == before[n]
  }

  /** One client's file: its server entries and, where it has one, its exclusion list. */
  class Document {
    var entries: Entries
    var excluded: Option<seq<string>>

    constructor (entries: Entries, excluded: Option<seq<string>>)
      ensures this.entries == entries && this.excluded == excluded
    {
      this.entries, this.excluded := entries, excluded;
    }

    method Apply(plan: Plan)
      requires forall n :: n in plan.adds || n in plan.updates ==> n in plan.desired && n !in plan.removes
      modifies this
      ensures Applied(plan, old(entries), entries)
      ensures excluded == match old(excluded) case None => None case Some(l) => Some(Without(l, plan.unexclude))
    {
      ghost var before := entries;
      for i := 0 to |plan.removes|
        invariant excluded == old(excluded)
        invariant entries == before - set n | n in plan.removes[..i]
      {
        entries := entries - {plan.removes[i]};
        assert plan.removes[..i + 1] == plan.removes[..i] + [plan.removes[i]];
      }
      assert plan.removes[..|plan.removes|] == plan.removes;
      ghost var kept := entries;
      var upserts := plan.adds + plan.updates;
      assert forall n :: n in upserts <==> n in plan.adds || n in plan.updates;
      for i := 0 to |upserts|
        invariant excluded == old(excluded)
        invariant entries.Keys == kept.Keys + set n | n in upserts[..i]
        invariant forall n :: n in entries ==>
                    if n in upserts[..i] then n in plan.desired && entries[n] == plan.desired[n]
                    else n in kept && entries[n] == kept[n]
      {
        assert upserts[i] in upserts;
        entries := entries[upserts[i] := plan.desired[upserts[i]]];
        assert upserts[..i + 1] == upserts[..i] + [upserts[i]];
      }
      assert upserts[..|upserts|] == upserts;
      if excluded.Some? { excluded := Some(Without(excluded.value, plan.unexclude)); }
    }
  }

  // ---- what a sync leaves ----

  /** The entries after a sync, in one expression: the target set over whatever stays. */
  function Synced(codec: Codec, current: Entries, canonical: map<string, Server>, managed: set<string>): Entries {
    (current - (managed - Enabled(canonical))) + Desired(codec, current, canonical, managed)
  }

  lemma AppliedIsSynced(plan: Plan, codec: Codec, current: Entries, canonical: map<string, Server>,
                        managed: set<string>, after: Entries)
    requires IsPlan(plan, codec, current, canonical, managed) && Applied(plan, current, after)
    ensures after == Synced(codec, current, canonical, managed)
  {
    var synced := Synced(codec, current, canonical, managed);
    forall n ensures n in after <==> n in synced {}
    forall n | n in after ensures after[n] == synced[n] {}
  }

  predicate HasChanges(plan: Plan) {
    !(plan.adds == [] && plan.updates == [] && plan.removes == [] && plan.unexclude == [])
  }

  lemma {:induction false} WithoutNothing(l: seq<string>)
    ensures Without(l, []) == l
  {
    if l != [] {
      var n := |l| - 1;
      WithoutNothing(l[..n]);
      assert l == l[..n] + [l[n]];
    }
  }

  lemma NothingPlanned(plan: Plan, codec: Codec, current: Entries, canonical: map<string, Server>,
                       managed: set<string>)
    requires IsPlan(plan, codec, current, canonical, managed)
    requires plan.adds == [] && plan.updates == [] && plan.removes == []
    ensures Synced(codec, current, canonical, managed) == current
  {
    AppliedIsSynced(plan, codec, current, canonical, managed, current);
  }

  lemma SomethingPlanned(plan: Plan, codec: Codec, current: Entries, canonical: map<string, Server>,
                         managed: set<string>, n: string)
    requires IsPlan(plan, codec, current, canonical, managed)
    requires n in plan.adds || n in plan.updates || n in plan.removes
    ensures Synced(codec, current, canonical, managed) != current
  {
    var synced := Synced(codec, current, canonical, managed);
    assert n in plan.adds ==> n in synced && n !in current;
    assert n in plan.removes ==> n !in synced && n in current;
    assert n in plan.updates ==> n in synced && synced[n] != current[n];
  }

  /** A plan has changes exactly if carrying it out changes the entries or the exclusion list. */
  lemma HasChangesExactly(plan: Plan, codec: Codec, current: Entries, canonical: map<string, Server>,
                          managed: set<string>, excluded: seq<string>)
    requires IsPlan(plan, codec, current, canonical, managed) && forall n :: n in plan.unexclude ==> n in excluded
    ensures HasChanges(plan) <==>
              Synced(codec, current, canonical, managed) != current || Without(excluded, plan.unexclude) != excluded
  {
    WithoutNothing(excluded);
    if plan.adds == [] && plan.updates == [] && plan.removes == [] {
      NothingPlanned(plan, codec, current, canonical, managed);
      if plan.unexclude != [] { assert plan.unexclude[0] in excluded && plan.unexclude[0] in plan.unexclude; }
    } else {
      var all := plan.adds + plan.updates + plan.removes;
      assert all[0] in plan.adds || all[0] in plan.updates || all[0] in plan.removes;
      SomethingPlanned(plan, codec, current, canonical, managed, all[0]);
    }
  }

  function One(b: bool): nat { if b then 1 else 0 }

  /** Each name the plan could be about is in exactly one of its lists, or already right. */
  lemma PlanPartitions(plan: Plan, codec: Codec, current: Entries, canonical: map<string, Server>,
                       managed: set<string>, n: string)
    requires IsPlan(plan, codec, current, canonical, managed)
    requires n in current || n in Enabled(canonical)
    ensures One(n in plan.adds) + One(n in plan.updates) + One(n in plan.removes) + One(n in plan.conflicts)
            + One(n in plan.foreign) + One(n in plan.desired && n in current && current[n] == plan.desired[n]) == 1
  {
    assert n in plan.desired <==> n in Target(current, canonical, managed);
    assert n in plan.updates <==> n in plan.desired && n in current && current[n] != plan.desired[n];
  }

  /** Entries mcpgw never wrote stay as they are, and the only new ones are enabled servers. */
  lemma OthersStay(codec: Codec, current: Entries, canonical: map<string, Server>, managed: set<string>, n: string)
    ensures var after := Synced(codec, current, canonical, managed);
            && (n in current && n !in managed ==> n in after && after[n] == current[n])
            && (n in after && n !in current ==> n in Enabled(canonical))
            && (n in current && n !in after <==> n in current && n in managed && n !in Enabled(canonical))
  {
  }

  /** In an entry it does write, a field is the canonical server's if that sets it, else the
      client's own if it is one of those and was there, else absent. */
  lemma FieldsAfterSync(codec: Codec, current: Entries, canonical: map<string, Server>, managed: set<string>,
                        n: string, f: string)
    requires n in Target(current, canonical, managed) && codec.emit(canonical[n]).Object?
    ensures var after := Synced(codec, current, canonical, managed);
            var emitted := codec.emit(canonical[n]).fields;
            var own := f in codec.preserved && n in current && current[n].Object? && f in current[n].fields;
            && n in after && after[n].Object?
            && (f in after[n].fields <==> f in emitted || own)
            && (f in after[n].fields ==>
                  after[n].fields[f] == if f in emitted then emitted[f] else current[n].fields[f])
  {
  }

  lemma TargetAgain(codec: Codec, current: Entries, canonical: map<string, Server>, other: map<string, Server>,
                    managed: set<string>)
    requires Enabled(other) == Enabled(canonical)
    ensures var after := Synced(codec, current, canonical, managed);
            var owned := Target(current, canonical, managed);
            && Conflicts(after, other, owned) == Conflicts(current, canonical, managed)
            && Target(after, other, owned) == owned
            && (after.Keys * owned) - Enabled(other) == {}
            && owned <= after.Keys
            && after.Keys - owned - Enabled(other) == current.Keys - managed - Enabled(canonical)
  {
  }

  /** A second sync, with the first one's target recorded as managed, has nothing to do; what it
      reports as conflicting and as foreign is what the first one reported. */
  lemma SyncIsAFixpoint(codec: Codec, current: Entries, canonical: map<string, Server>, managed: set<string>,
                        first: Plan, second: Plan)
    requires IsPlan(first, codec, current, canonical, managed)
    requires IsPlan(second, codec, Synced(codec, current, canonical, managed), canonical, first.desired.Keys)
    ensures second.adds == [] && second.updates == [] && second.removes == []
    ensures second.desired == first.desired
    ensures second.conflicts == first.conflicts && second.foreign == first.foreign
  {
    var after := Synced(codec, current, canonical, managed);
    var owned := Target(current, canonical, managed);
    TargetAgain(codec, current, canonical, canonical, managed);
    forall n | n in owned ensures after[n] == Wanted(codec, after, canonical, n) == first.desired[n] {
      CarriedTwice(codec.preserved, Lookup(current, n), codec.emit(canonical[n]));
    }
    SortedUnique(second.conflicts, first.conflicts);
    SortedUnique(second.foreign, first.foreign);
    NoneLeft(second.adds, Target(after, canonical, owned) - after.Keys);
    NoneLeft(second.updates, Stale(codec, after, canonical, owned));
    NoneLeft(second.removes, (after.Keys * owned) - Enabled(canonical));
  }

  lemma NoneLeft(l: seq<string>, s: set<string>)
    requires IsList(l, s) && s == {}
    ensures l == []
  {
    SortedUnique(l, []);
  }

  /** The record is saved before the file is written. A run cut off in between is repaired by the
      next exactly when it had nothing to remove: a removal it had already given up owning is
      taken for the user's entry from then on. */
  lemma CutOffAfterClaiming(codec: Codec, current: Entries, canonical: map<string, Server>, managed: set<string>,
                            plan: Plan)
    requires IsPlan(plan, codec, current, canonical, managed)
    ensures Synced(codec, current, canonical, plan.desired.Keys) == Synced(codec, current, canonical, managed)
            <==> plan.removes == []
    ensures forall n :: n in plan.removes ==>
              n in Synced(codec, current, canonical, plan.desired.Keys)
              && n !in Synced(codec, current, canonical, managed)
  {
    var owned := Target(current, canonical, managed);
    DesiredAgain(codec, current, canonical, managed);
    assert plan.desired.Keys == owned;
    var repaired, whole := Synced(codec, current, canonical, owned), Synced(codec, current, canonical, managed);
    forall n | n in plan.removes ensures n in repaired && n !in whole {}
    if plan.removes == [] {
      assert forall n :: n in current && n in managed && n !in Enabled(canonical) ==> n in plan.removes;
      assert repaired == whole;
    } else {
      assert plan.removes[0] in plan.removes;
    }
  }

  lemma DesiredAgain(codec: Codec, current: Entries, canonical: map<string, Server>, managed: set<string>)
    ensures var owned := Target(current, canonical, managed);
            Target(current, canonical, owned) == owned && owned - Enabled(canonical) == {}
            && Desired(codec, current, canonical, owned) == Desired(codec, current, canonical, managed)
  {
  }

  /** Nor does it find anything left to take off the exclusion list. */
  lemma ExclusionIsSettled(first: Plan, second: Plan, excluded: seq<string>)
    requires IsList(first.unexclude, Unexcluded(first, excluded))
    requires second.desired == first.desired && second.removes == []
    ensures Unexcluded(second, Without(excluded, first.unexclude)) == {}
  {
  }

  // ---- there and back ----

  /** When writing `a` and then `b` over an entry leaves what writing `b` alone would, whatever
      the entry was: exactly when every client-owned field `a` sets is one `b` sets too. */
  lemma OverwritingLeavesNoTrace(preserved: seq<string>, a: Value, b: Value)
    requires a.Object? && b.Object?
    ensures (forall x :: Carried(preserved, Some(Carried(preserved, x, a)), b) == Carried(preserved, x, b)) <==>
              NoTrace(preserved, a, b)
  {
    if forall x :: Carried(preserved, Some(Carried(preserved, x, a)), b) == Carried(preserved, x, b) {
      assert Carried(preserved, Some(Carried(preserved, None, a)), b) == b;
      TraceIsSeen(preserved, a, b);
    }
    if NoTrace(preserved, a, b) {
      forall x ensures Carried(preserved, Some(Carried(preserved, x, a)), b) == Carried(preserved, x, b) {
        NoTraceIsSeen(preserved, x, a, b);
      }
    }
  }

  predicate NoTrace(preserved: seq<string>, a: Value, b: Value)
    requires a.Object? && b.Object?
  {
    forall f :: f in preserved && f in a.fields ==> f in b.fields
  }

  lemma TraceIsSeen(preserved: seq<string>, a: Value, b: Value)
    requires a.Object? && b.Object? && Carried(preserved, Some(a), b) == b
    ensures NoTrace(preserved, a, b)
  {
    var r := Carried(preserved, Some(a), b);
    assert forall f :: f in preserved && f in a.fields ==> f in r.fields;
  }

  lemma NoTraceIsSeen(preserved: seq<string>, x: Option<Value>, a: Value, b: Value)
    requires a.Object? && b.Object? && NoTrace(preserved, a, b)
    ensures Carried(preserved, Some(Carried(preserved, x, a)), b) == Carried(preserved, x, b)
  {
    var once := Carried(preserved, x, a);
    assert Carried(preserved, Some(once), b).fields == Carried(preserved, x, b).fields;
  }

  ghost predicate EmitsObjects(codec: Codec, servers: map<string, Server>) {
    forall n :: n in servers ==> codec.emit(servers[n]).Object?
  }

  /** No entry written for `through` sets a client-owned field the direct one does not. */
  ghost predicate Traceless(codec: Codec, through: map<string, Server>, canonical: map<string, Server>)
    requires EmitsObjects(codec, through) && EmitsObjects(codec, canonical)
  {
    forall n :: n in canonical && canonical[n].enabled && n in through ==>
      NoTrace(codec.preserved, codec.emit(through[n]), codec.emit(canonical[n]))
  }

  /** Some of the canonical servers, each enabled as it is there. */
  ghost predicate PartOf(through: map<string, Server>, canonical: map<string, Server>) {
    through.Keys <= canonical.Keys && forall n :: n in through ==> through[n].enabled == canonical[n].enabled
  }

  /** The file after syncing to `through` and then to `canonical`. */
  function ThereAndBack(codec: Codec, current: Entries, through: map<string, Server>, canonical: map<string, Server>,
                        managed: set<string>): Entries {
    Synced(codec, Synced(codec, current, through, managed), canonical, Target(current, through, managed))
  }

  /** The file after syncing to `through` and then ejecting to `canonical`: an eject passes over a
      file in which nothing is managed. */
  function Ejected(codec: Codec, current: Entries, through: map<string, Server>, canonical: map<string, Server>,
                   managed: set<string>): Entries {
    if Target(current, through, managed) == {} then Synced(codec, current, through, managed)
    else ThereAndBack(codec, current, through, canonical, managed)
  }

  predicate Holds(entry: Option<Value>, field: string) {
    entry.Some? && entry.value.Object? && field in entry.value.fields
  }

  /** What an entry is after `a` was written over it; None removes it. */
  function Via(preserved: seq<string>, entry: Option<Value>, a: Option<Value>): Option<Value> {
    if a.Some? then Some(Carried(preserved, entry, a.value)) else None
  }

  /** Of the client-owned fields `b` does not set, `a` sets none but as it is, and without an
      object `a` to carry them the entry holds none. */
  predicate OwnKept(preserved: seq<string>, entry: Option<Value>, a: Option<Value>, b: Value) {
    b.Object? ==>
      forall f :: f in preserved && f !in b.fields ==>
        if Holds(a, f) then Holds(entry, f) && entry.value.fields[f] == a.value.fields[f]
        else Holds(entry, f) ==> a.Some? && a.value.Object?
  }

  /** Writing `a` and then `b` over an entry leaves what writing `b` alone would exactly then. */
  lemma WrittenBack(preserved: seq<string>, entry: Option<Value>, a: Option<Value>, b: Value)
    ensures Carried(preserved, Via(preserved, entry, a), b) == Carried(preserved, entry, b)
            <==> OwnKept(preserved, entry, a, b)
  {
    var back, direct := Carried(preserved, Via(preserved, entry, a), b), Carried(preserved, entry, b);
    if b.Object? {
      forall f | f in preserved && f !in b.fields
        ensures f in back.fields <==> Holds(Via(preserved, entry, a), f)
        ensures f in direct.fields <==> Holds(entry, f)
      {
      }
      if OwnKept(preserved, entry, a, b) { assert back.fields == direct.fields; }
    }
  }

  function Gate(codec: Codec, through: map<string, Server>, n: string): Option<Value> {
    if n in through then Some(codec.emit(through[n])) else None
  }

  /** Both ways write the same entries, the second over what the first sync left of each. */
  lemma SameTarget(codec: Codec, current: Entries, canonical: map<string, Server>, through: map<string, Server>,
                   managed: set<string>)
    requires PartOf(through, canonical)
    ensures var via, owned := Synced(codec, current, through, managed), Target(current, through, managed);
            && Target(via, canonical, owned) == Target(current, canonical, managed)
            && owned <= Target(current, canonical, managed)
            && (forall n :: n in Target(current, canonical, managed) ==>
                  Lookup(via, n) == Via(codec.preserved, Lookup(current, n), Gate(codec, through, n)))
  {
  }

  /** Away from what they write, both leave the file as it was. */
  lemma SameRest(codec: Codec, current: Entries, canonical: map<string, Server>, through: map<string, Server>,
                 managed: set<string>, n: string)
    requires PartOf(through, canonical) && n !in Target(current, canonical, managed)
    ensures Lookup(ThereAndBack(codec, current, through, canonical, managed), n)
            == Lookup(Synced(codec, current, canonical, managed), n)
            == Lookup(Synced(codec, current, through, managed), n)
  {
    SameTarget(codec, current, canonical, through, managed);
  }

  lemma BackAt(codec: Codec, current: Entries, canonical: map<string, Server>, through: map<string, Server>,
               managed: set<string>, n: string)
    requires PartOf(through, canonical) && n in Target(current, canonical, managed)
    ensures var back := ThereAndBack(codec, current, through, canonical, managed);
            var direct := Synced(codec, current, canonical, managed);
            n in back && n in direct
            && (back[n] == direct[n]
                <==> OwnKept(codec.preserved, Lookup(current, n), Gate(codec, through, n), codec.emit(canonical[n])))
  {
    SameTarget(codec, current, canonical, through, managed);
    WrittenBack(codec.preserved, Lookup(current, n), Gate(codec, through, n), codec.emit(canonical[n]));
  }

  /** Every entry a direct sync would write comes back with the client's own fields. */
  ghost predicate AllKept(codec: Codec, current: Entries, canonical: map<string, Server>, through: map<string, Server>,
                          managed: set<string>)
  {
    forall n :: n in Target(current, canonical, managed) ==>
      OwnKept(codec.preserved, Lookup(current, n), Gate(codec, through, n), codec.emit(canonical[n]))
  }

  lemma SameLookups(a: Entries, b: Entries)
    ensures a == b <==> forall n :: Lookup(a, n) == Lookup(b, n)
  {
    if forall n :: Lookup(a, n) == Lookup(b, n) {
      forall n ensures n in a <==> n in b { assert Lookup(a, n) == Lookup(b, n); }
      forall n | n in a ensures a[n] == b[n] { assert Lookup(a, n) == Lookup(b, n); }
    }
  }

  lemma BackExactly(codec: Codec, current: Entries, canonical: map<string, Server>, through: map<string, Server>,
                    managed: set<string>)
    requires PartOf(through, canonical)
    ensures ThereAndBack(codec, current, through, canonical, managed) == Synced(codec, current, canonical, managed)
            <==> AllKept(codec, current, canonical, through, managed)
  {
    var back := ThereAndBack(codec, current, through, canonical, managed);
    var direct := Synced(codec, current, canonical, managed);
    SameLookups(back, direct);
    forall n
      ensures n in Target(current, canonical, managed) ==>
                (Lookup(back, n) == Lookup(direct, n)
                 <==> OwnKept(codec.preserved, Lookup(current, n), Gate(codec, through, n), codec.emit(canonical[n])))
      ensures n !in Target(current, canonical, managed) ==> Lookup(back, n) == Lookup(direct, n)
    {
      if n in Target(current, canonical, managed) {
        BackAt(codec, current, canonical, through, managed, n);
      } else {
        SameRest(codec, current, canonical, through, managed, n);
      }
    }
  }

  /** If nothing is managed after the first sync, its file is a direct sync's exactly if that
      would write nothing either. */
  lemma SkippedExactly(codec: Codec, current: Entries, canonical: map<string, Server>, through: map<string, Server>,
                       managed: set<string>)
    requires PartOf(through, canonical) && Target(current, through, managed) == {}
    ensures Synced(codec, current, through, managed) == Synced(codec, current, canonical, managed)
            <==> Target(current, canonical, managed) == {}
  {
    var left, direct := Synced(codec, current, through, managed), Synced(codec, current, canonical, managed);
    SameTarget(codec, current, canonical, through, managed);
    if Target(current, canonical, managed) == {} {
      SameLookups(left, direct);
      forall n ensures Lookup(left, n) == Lookup(direct, n) {
        SameRest(codec, current, canonical, through, managed, n);
      }
    } else {
      var n :| n in Target(current, canonical, managed);
      assert n in direct && n !in left;
    }
  }

  /** For every file, every record and every part of the servers a gateway sync pointed elsewhere:
      the eject gives the file a direct sync would have given exactly if every entry that would
      write comes back with the client's own fields, and the gateway sync left something managed
      if there was anything to write. */
  lemma EjectUndoesExactly(codec: Codec, current: Entries, canonical: map<string, Server>, through: map<string, Server>,
                           managed: set<string>)
    requires PartOf(through, canonical)
    ensures Ejected(codec, current, through, canonical, managed) == Synced(codec, current, canonical, managed)
            <==>
            && AllKept(codec, current, canonical, through, managed)
            && (Target(current, through, managed) == {} ==> Target(current, canonical, managed) == {})
  {
    if Target(current, through, managed) == {} {
      SkippedExactly(codec, current, canonical, through, managed);
    } else {
      BackExactly(codec, current, canonical, through, managed);
    }
  }

  /** The entries mcpgw wrote for enabled servers that were left out hold no client-owned field but
      those the direct entry sets. */
  ghost predicate LeftOutLoseNothing(codec: Codec, current: Entries, canonical: map<string, Server>,
                                     through: map<string, Server>, managed: set<string>)
    requires EmitsObjects(codec, canonical)
  {
    forall n :: n in Enabled(canonical) && n !in through && n in managed && n in current && current[n].Object? ==>
      NoTrace(codec.preserved, current[n], codec.emit(canonical[n]))
  }

  /** With gateway entries that set no client-owned field the direct ones do not, all that can be
      lost is what was left out: fields of the entries the gateway sync removed, and everything if
      it left nothing managed. */
  lemma EjectUndoesGateway(codec: Codec, current: Entries, canonical: map<string, Server>, through: map<string, Server>,
                           managed: set<string>)
    requires PartOf(through, canonical)
    requires EmitsObjects(codec, through) && EmitsObjects(codec, canonical) && Traceless(codec, through, canonical)
    ensures Ejected(codec, current, through, canonical, managed) == Synced(codec, current, canonical, managed)
            <==>
            && LeftOutLoseNothing(codec, current, canonical, through, managed)
            && (Target(current, through, managed) == {} ==> Target(current, canonical, managed) == {})
  {
    EjectUndoesExactly(codec, current, canonical, through, managed);
    forall n | n in Target(current, canonical, managed)
      ensures OwnKept(codec.preserved, Lookup(current, n), Gate(codec, through, n), codec.emit(canonical[n]))
              <==> n in through || n !in current || current[n].Other?
                   || NoTrace(codec.preserved, current[n], codec.emit(canonical[n]))
    {
      if n in through { assert NoTrace(codec.preserved, codec.emit(through[n]), codec.emit(canonical[n])); }
    }
  }

  /** On an empty file already, the eject shows any client-owned field a gateway entry set and the
      direct one does not. */
  lemma EjectUndoesOnlyTraceless(codec: Codec, canonical: map<string, Server>, through: map<string, Server>)
    requires PartOf(through, canonical) && EmitsObjects(codec, through) && EmitsObjects(codec, canonical)
    requires Ejected(codec, map[], through, canonical, {}) == Synced(codec, map[], canonical, {})
    ensures Traceless(codec, through, canonical)
  {
    EjectUndoesExactly(codec, map[], canonical, through, {});
    forall n | n in canonical && canonical[n].enabled && n in through
      ensures NoTrace(codec.preserved, codec.emit(through[n]), codec.emit(canonical[n]))
    {
      assert n in Target(map[], canonical, {});
      assert OwnKept(codec.preserved, None, Gate(codec, through, n), codec.emit(canonical[n]));
    }
  }

  /** A file in which the client's own entries occupy every server of `through`. */
  function Occupied(through: map<string, Server>): Entries {
    map n | n in through :: Object(map[])
  }

  /** The eject undoes the gateway sync for every file and every record exactly if the gateway sync
      left out no enabled server and its entries set no client-owned field the direct ones do not. */
  lemma EjectUndoesForEveryFile(codec: Codec, canonical: map<string, Server>, through: map<string, Server>)
    requires PartOf(through, canonical) && EmitsObjects(codec, through) && EmitsObjects(codec, canonical)
    ensures (forall current, managed ::
               Ejected(codec, current, through, canonical, managed) == Synced(codec, current, canonical, managed))
            <==> Enabled(canonical) <= through.Keys && Traceless(codec, through, canonical)
  {
    if forall current, managed ::
         Ejected(codec, current, through, canonical, managed) == Synced(codec, current, canonical, managed) {
      EjectUndoesOnlyTraceless(codec, canonical, through);
      EjectUndoesExactly(codec, Occupied(through), canonical, through, {});
      assert Target(Occupied(through), through, {}) == {};
      forall n | n in Enabled(canonical) ensures n in through {
        assert n !in Target(Occupied(through), canonical, {});
      }
    }
    if Enabled(canonical) <= through.Keys && Traceless(codec, through, canonical) {
      forall current, managed
        ensures Ejected(codec, current, through, canonical, managed) == Synced(codec, current, canonical, managed)
      {
        EjectUndoesGateway(codec, current, canonical, through, managed);
        assert Enabled(through) == Enabled(canonical);
      }
    }
  }

  // ---- gateway entries ----

  /** A client's own scope: an empty list of servers is every server. */
  predicate HasServer(scope: Option<seq<string>>, name: string) {
    scope.None? || scope.value == [] || name in scope.value
  }

  /** The same servers, each reached through its own endpoint; a server out of scope is left out. */
  function GatewayServers(canonical: map<string, Server>, endpoint: string -> Transport,
                          scope: Option<seq<string>>): map<string, Server>
  {
    map n | n in canonical && HasServer(scope, n) ::
      Server(canonical[n].enabled, canonical[n].tags, 0, endpoint(n), None)
  }

  lemma GatewayIsPart(canonical: map<string, Server>, endpoint: string -> Transport, scope: Option<seq<string>>)
    ensures PartOf(GatewayServers(canonical, endpoint, scope), canonical)
    ensures Enabled(canonical) <= GatewayServers(canonical, endpoint, scope).Keys
            <==> forall n :: n in Enabled(canonical) ==> HasServer(scope, n)
  {
  }

  /** For a client of any scope: the eject undoes its gateway sync exactly if the entries removed for
      being out of scope held no client-owned field but those the direct entry sets, and the scope
      left something managed if there was anything to write. */
  lemma EjectUndoesGatewayServers(codec: Codec, current: Entries, canonical: map<string, Server>,
                                  endpoint: string -> Transport, scope: Option<seq<string>>, managed: set<string>)
    requires var through := GatewayServers(canonical, endpoint, scope);
             EmitsObjects(codec, through) && EmitsObjects(codec, canonical) && Traceless(codec, through, canonical)
    ensures var through := GatewayServers(canonical, endpoint, scope);
            Ejected(codec, current, through, canonical, managed) == Synced(codec, current, canonical, managed)
            <==>
            && (forall n :: n in Enabled(canonical) && !HasServer(scope, n) && n in managed && n in current
                            && current[n].Object? ==>
                  NoTrace(codec.preserved, current[n], codec.emit(canonical[n])))
            && (Target(current, through, managed) == {} ==> Target(current, canonical, managed) == {})
  {
    GatewayIsPart(canonical, endpoint, scope);
    EjectUndoesGateway(codec, current, canonical, GatewayServers(canonical, endpoint, scope), managed);
  }

  /** So it does for every file exactly if the scope has every enabled server. */
  lemma EjectUndoesWhatTheScopeHas(codec: Codec, canonical: map<string, Server>, endpoint: string -> Transport,
                                   scope: Option<seq<string>>)
    requires var through := GatewayServers(canonical, endpoint, scope);
             EmitsObjects(codec, through) && EmitsObjects(codec, canonical) && Traceless(codec, through, canonical)
    ensures (forall current, managed ::
               Ejected(codec, current, GatewayServers(canonical, endpoint, scope), canonical, managed)
               == Synced(codec, current, canonical, managed))
            <==> forall n :: n in Enabled(canonical) ==> HasServer(scope, n)
  {
    GatewayIsPart(canonical, endpoint, scope);
    EjectUndoesForEveryFile(codec, canonical, GatewayServers(canonical, endpoint, scope));
  }

  /** A client scoped to "a" had a timeout of its own in the entry for "b": the gateway sync removes
      the entry and the eject writes it back without the timeout. */
  lemma EjectForgetsATimeout(server: Server, endpoint: string -> Transport)
    requires server.enabled
    ensures var codec := Codec(_ => Object(map["url" := "u"]), ["timeout"]);
            var canonical := map["a" := server, "b" := server];
            var current := map["b" := Object(map["url" := "u", "timeout" := "60"])];
            var through := GatewayServers(canonical, endpoint, Some(["a"]));
            "b" in Ejected(codec, current, through, canonical, {"b"})
            && Ejected(codec, current, through, canonical, {"b"})["b"] == Object(map["url" := "u"])
            && "b" in Synced(codec, current, canonical, {"b"})
            && Synced(codec, current, canonical, {"b"})["b"] == current["b"]
  {
    var codec := Codec(_ => Object(map["url" := "u"]), ["timeout"]);
    var canonical := map["a" := server, "b" := server];
    var current := map["b" := Object(map["url" := "u", "timeout" := "60"])];
    var through := GatewayServers(canonical, endpoint, Some(["a"]));
    GatewayIsPart(canonical, endpoint, Some(["a"]));
    SameTarget(codec, current, canonical, through, {"b"});
    assert "a" in Target(current, through, {"b"}) && "b" in Target(current, canonical, {"b"}) && "b" !in through;
    assert Carried(["timeout"], None, Object(map["url" := "u"])) == Object(map["url" := "u"]);
    assert Carried(["timeout"], Some(current["b"]), Object(map["url" := "u"])).fields == current["b"].fields;
  }

  /** A client scoped to a server there is not: the gateway sync removes what was managed, and the
      eject passes over the file. */
  lemma EjectPassesOver(codec: Codec, server: Server, endpoint: string -> Transport)
    requires server.enabled
    ensures var canonical := map["b" := server];
            var current := map["b" := codec.emit(server)];
            var through := GatewayServers(canonical, endpoint, Some(["a"]));
            Ejected(codec, current, through, canonical, {"b"}) == map[]
            && "b" in Synced(codec, current, canonical, {"b"})
  {
  }

  /** Narrowing a scope removes what mcpgw wrote for the servers it leaves out, and only that. */
  lemma ScopeRemoves(codec: Codec, current: Entries, canonical: map<string, Server>, endpoint: string -> Transport,
                     scope: Option<seq<string>>, managed: set<string>, n: string)
    requires n in canonical && !HasServer(scope, n)
    ensures n in Synced(codec, current, GatewayServers(canonical, endpoint, scope), managed)
            <==> n in current && n !in managed
  {
  }

  /** A gateway entry, field by field: enabled and tagged as the server is, with no limit and no tool
      rules of its own; no scope, and an empty one, has every server. */
  lemma GatewayByField(canonical: map<string, Server>, endpoint: string -> Transport, scope: Option<seq<string>>,
                       n: string)
    ensures var through := GatewayServers(canonical, endpoint, scope);
            && (n in through <==> n in canonical && (scope.Some? && |scope.value| > 0 ==> n in scope.value))
            && (n in through ==>
                  && through[n].transport == endpoint(n)
                  && through[n].enabled == canonical[n].enabled && through[n].tags == canonical[n].tags
                  && through[n].callsPerMinute == 0 && through[n].tools == None)
  {
  }
}
