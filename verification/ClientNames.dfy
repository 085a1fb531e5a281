/** The names one client uses: after a conflict was answered with keep-both, an entry may stand
    for a canonical server of another name. */
module ClientNames {
  import opened Common
  import opened Text
  import opened Servers
  import opened Sync

  predicate IsGreatest(k: string, s: set<string>) {
    k in s && forall j :: j in s ==> AtMost(j, k)
  }

  lemma GreatestExists(s: set<string>)
    requires s != {}
    ensures exists k :: IsGreatest(k, s)
    ensures forall a, b :: IsGreatest(a, s) && IsGreatest(b, s) ==> a == b
  {
    var ks := SortedKeys(s);
    var k := ks[|ks| - 1];
    forall j | j in s ensures AtMost(j, k) { assert j in ks; }
    assert IsGreatest(k, s);
    forall a, b | IsGreatest(a, s) && IsGreatest(b, s) ensures a == b {
      if Less(a, b) { LessAsymmetric(a, b); }
    }
  }

  function Greatest(s: set<string>): (k: string)
    requires s != {}
    ensures IsGreatest(k, s)
  {
    GreatestExists(s);
    var k :| k in s && IsGreatest(k, s);
    k
  }

  /** The entries that stand for a canonical server. */
  function StandIns(resolved: map<string, string>, canonical: string): set<string> {
    set e | e in resolved && resolved[e] == canonical
  }

  /** What a canonical server is called in the client; None when its own name there stands for
      another server. */
  function GoesBy(resolved: map<string, string>, canonical: string): Option<string> {
    var entries := StandIns(resolved, canonical);
    if entries != {} then Some(Greatest(entries))
    else if canonical in resolved then None
    else Some(canonical)
  }

  /** The canonical server an entry name stands for. */
  function StandsFor(resolved: map<string, string>, entry: string): string {
    if entry in resolved then resolved[entry] else entry
  }

  function Displaced<V>(desired: map<string, V>, resolved: map<string, string>): set<string> {
    set c | c in desired && GoesBy(resolved, c) == None
  }

  /** The desired set under the client's names. */
  function Renamed<V>(desired: map<string, V>, resolved: map<string, string>): map<string, V> {
    map e | e in desired.Keys + resolved.Keys && StandsFor(resolved, e) in desired
            && GoesBy(resolved, StandsFor(resolved, e)) == Some(e) :: desired[StandsFor(resolved, e)]
  }

  lemma GoesByStandsFor(resolved: map<string, string>, c: string)
    requires GoesBy(resolved, c).Some?
    ensures StandsFor(resolved, GoesBy(resolved, c).value) == c
    ensures GoesBy(resolved, c).value in resolved || GoesBy(resolved, c).value == c
  {
  }

  /** No two canonical servers are ever given one name. */
  lemma NamesAreInjective(resolved: map<string, string>, c: string, d: string)
    requires GoesBy(resolved, c).Some? && GoesBy(resolved, c) == GoesBy(resolved, d)
    ensures c == d
  {
    GoesByStandsFor(resolved, c);
    GoesByStandsFor(resolved, d);
  }

  /** Every server of the input is either kept, under one name, or displaced: the two together
      are as many as there were. */
  lemma {:induction false} NothingIsLost<V>(desired: map<string, V>, resolved: map<string, string>)
    ensures |Renamed(desired, resolved)| + |Displaced(desired, resolved)| == |desired|
    ensures forall c :: c in desired ==>
              (c in Displaced(desired, resolved) <==> GoesBy(resolved, c) == None)
              && (GoesBy(resolved, c).Some? ==>
                    var e := GoesBy(resolved, c).value;
                    e in Renamed(desired, resolved) && Renamed(desired, resolved)[e] == desired[c])
    decreases |desired|
  {
    forall c | c in desired && GoesBy(resolved, c).Some?
      ensures GoesBy(resolved, c).value in Renamed(desired, resolved)
      ensures Renamed(desired, resolved)[GoesBy(resolved, c).value] == desired[c]
    {
      GoesByStandsFor(resolved, c);
    }
    if desired == map[] {
      assert Renamed(desired, resolved) == map[] && Displaced(desired, resolved) == {};
    } else {
      var c :| c in desired;
      NothingIsLost(desired - {c}, resolved);
      OneLess(desired, resolved, c);
    }
  }

  lemma KeptOneLess<V>(desired: map<string, V>, resolved: map<string, string>, c: string)
    requires c in desired && GoesBy(resolved, c).Some?
    ensures Displaced(desired, resolved) == Displaced(desired - {c}, resolved)
    ensures Renamed(desired, resolved).Keys == Renamed(desired - {c}, resolved).Keys + {GoesBy(resolved, c).value}
    ensures GoesBy(resolved, c).value !in Renamed(desired - {c}, resolved)
  {
    var rest, e := desired - {c}, GoesBy(resolved, c).value;
    GoesByStandsFor(resolved, c);
    forall x ensures x in Renamed(desired, resolved) <==> x in Renamed(rest, resolved) || x == e {}
    assert forall x :: x in Displaced(desired, resolved) <==> x in Displaced(rest, resolved);
  }

  lemma DisplacedOneLess<V>(desired: map<string, V>, resolved: map<string, string>, c: string)
    requires c in desired && GoesBy(resolved, c) == None
    ensures Displaced(desired, resolved) == Displaced(desired - {c}, resolved) + {c}
    ensures Renamed(desired, resolved).Keys == Renamed(desired - {c}, resolved).Keys
  {
    forall x | x in Renamed(desired, resolved) ensures StandsFor(resolved, x) != c {}
  }

  lemma OneKeyMore<V>(m: map<string, V>, n: map<string, V>, k: string)
    requires m.Keys == n.Keys + {k} && k !in n
    ensures |m| == |n| + 1
  {
    assert |m| == |m.Keys| && |n| == |n.Keys|;
  }

  lemma SameKeys<V>(m: map<string, V>, n: map<string, V>)
    requires m.Keys == n.Keys
    ensures |m| == |n|
  {
    assert |m| == |m.Keys| && |n| == |n.Keys|;
  }

  lemma OneLess<V>(desired: map<string, V>, resolved: map<string, string>, c: string)
    requires c in desired
    ensures |desired| == |desired - {c}| + 1
    ensures |Renamed(desired, resolved)| + |Displaced(desired, resolved)| ==
            |Renamed(desired - {c}, resolved)| + |Displaced(desired - {c}, resolved)| + 1
  {
    var rest := desired - {c};
    OneKeyMore(desired, rest, c);
    if GoesBy(resolved, c).Some? {
      KeptOneLess(desired, resolved, c);
      OneKeyMore(Renamed(desired, resolved), Renamed(rest, resolved), GoesBy(resolved, c).value);
    } else {
      DisplacedOneLess(desired, resolved, c);
      SameKeys(Renamed(desired, resolved), Renamed(rest, resolved));
    }
  }

  /** Of the first `i` entries, the last in order for each server. */
  ghost predicate LastEntries(resolved: map<string, string>, entries: seq<string>, i: nat, r: map<string, string>)
    requires i <= |entries| && forall e :: e in entries ==> e in resolved
  {
    && (forall c :: c in r ==> r[c] in entries[..i] && r[c] in resolved && resolved[r[c]] == c)
    && (forall e :: e in entries[..i] ==> resolved[e] in r && AtMost(e, r[resolved[e]]))
  }

  lemma LastEntriesStep(resolved: map<string, string>, entries: seq<string>, i: nat, r: map<string, string>)
    requires Sorted(entries) && i < |entries| && forall e :: e in entries ==> e in resolved
    requires LastEntries(resolved, entries, i, r)
    ensures LastEntries(resolved, entries, i + 1, r[resolved[entries[i]] := entries[i]])
  {
    assert entries[..i + 1] == entries[..i] + [entries[i]];
    forall e | e in entries[..i] ensures Less(e, entries[i]) {
      var j :| 0 <= j < i && entries[j] == e;
    }
  }

  lemma LastEntriesAll(resolved: map<string, string>, entries: seq<string>, r: map<string, string>)
    requires forall e :: e in entries <==> e in resolved
    requires LastEntries(resolved, entries, |entries|, r)
    ensures forall c :: c in r <==> StandIns(resolved, c) != {}
    ensures forall c :: c in r ==>
              r[c] in StandIns(resolved, c) && forall e :: e in StandIns(resolved, c) ==> AtMost(e, r[c])
  {
    assert entries[..|entries|] == entries;
    forall c | c in r ensures r[c] in StandIns(resolved, c) {}
    forall c, e | e in StandIns(resolved, c) ensures c in r && AtMost(e, r[c]) { assert e in entries; }
    forall c | StandIns(resolved, c) != {} ensures c in r {
      var e :| e in StandIns(resolved, c);
    }
  }

  /** Canonical name to entry name; of several entries for one server the last in order wins. */
  method EntryFor(resolved: map<string, string>, entries: seq<string>) returns (r: map<string, string>)
    requires Sorted(entries) && forall e :: e in entries <==> e in resolved
    ensures forall c :: c in r <==> StandIns(resolved, c) != {}
    ensures forall c :: c in r ==>
              r[c] in StandIns(resolved, c) && forall e :: e in StandIns(resolved, c) ==> AtMost(e, r[c])
  {
    r := map[];
    for i := 0 to |entries|
      invariant LastEntries(resolved, entries, i, r)
    {
      LastEntriesStep(resolved, entries, i, r);
      assert entries[i] in entries;
      r := r[resolved[entries[i]] := entries[i]];
    }
    LastEntriesAll(resolved, entries, r);
  }

  lemma GreatestIs(s: set<string>, k: string)
    requires k in s && forall j :: j in s ==> AtMost(j, k)
    ensures Greatest(s) == k
  {
    GreatestExists(s);
    assert IsGreatest(k, s);
  }

  lemma EarlierNamesDiffer(resolved: map<string, string>, names: seq<string>, i: nat)
    requires Sorted(names) && i < |names|
    ensures forall j :: 0 <= j < i && GoesBy(resolved, names[j]).Some? ==>
              GoesBy(resolved, names[j]) != GoesBy(resolved, names[i])
  {
    forall j | 0 <= j < i && GoesBy(resolved, names[j]).Some?
      ensures GoesBy(resolved, names[j]) != GoesBy(resolved, names[i])
    {
      LessAsymmetric(names[j], names[i]);
      if GoesBy(resolved, names[j]) == GoesBy(resolved, names[i]) { NamesAreInjective(resolved, names[j], names[i]); }
    }
  }

  method Rename<V>(desired: map<string, V>, resolved: map<string, string>, entryFor: map<string, string>,
                   names: seq<string>)
    returns (out: map<string, V>, displaced: seq<string>)
    requires Sorted(names) && forall c :: c in names <==> c in desired
    requires forall c :: c in entryFor <==> StandIns(resolved, c) != {}
    requires forall c :: c in entryFor ==> entryFor[c] == Greatest(StandIns(resolved, c))
    ensures forall c :: c in desired && GoesBy(resolved, c).Some? ==>
              GoesBy(resolved, c).value in out && out[GoesBy(resolved, c).value] == desired[c]
    ensures forall e :: e in out ==> exists c :: c in desired && GoesBy(resolved, c) == Some(e)
    ensures IsList(displaced, Displaced(desired, resolved))
  {
    out, displaced := map[], [];
    ghost var gone := Displaced(desired, resolved);
    for i := 0 to |names|
      invariant forall j :: 0 <= j < i && GoesBy(resolved, names[j]).Some? ==>
                  GoesBy(resolved, names[j]).value in out && out[GoesBy(resolved, names[j]).value] == desired[names[j]]
      invariant forall e :: e in out ==> exists c :: c in desired && GoesBy(resolved, c) == Some(e)
      invariant Visited(displaced, names, i, gone)
    {
      var c := names[i];
      assert c in names;
      UptoStep(names, i, gone, displaced);
      EarlierNamesDiffer(resolved, names, i);
      if c in entryFor {
        out := out[entryFor[c] := desired[c]];
      } else if c in resolved {
        displaced := displaced + [c];
      } else {
        out := out[c := desired[c]];
      }
    }
    UptoAll(names, gone, displaced);
    forall c | c in desired && GoesBy(resolved, c).Some?
      ensures GoesBy(resolved, c).value in out && out[GoesBy(resolved, c).value] == desired[c]
    {
      var j :| 0 <= j < |names| && names[j] == c;
    }
  }

  lemma RenamedIs<V>(desired: map<string, V>, resolved: map<string, string>, out: map<string, V>)
    requires forall c :: c in desired && GoesBy(resolved, c).Some? ==>
               GoesBy(resolved, c).value in out && out[GoesBy(resolved, c).value] == desired[c]
    requires forall e :: e in out ==> exists c :: c in desired && GoesBy(resolved, c) == Some(e)
    ensures out == Renamed(desired, resolved)
  {
    forall e | e in out ensures e in Renamed(desired, resolved) && out[e] == Renamed(desired, resolved)[e] {
      var c :| c in desired && GoesBy(resolved, c) == Some(e);
      GoesByStandsFor(resolved, c);
    }
  }

  method UnderClientNames<V>(desired: map<string, V>, resolved: map<string, string>)
    returns (out: map<string, V>, displaced: seq<string>)
    ensures out == Renamed(desired, resolved)
    ensures IsList(displaced, Displaced(desired, resolved))
  {
    if resolved == map[] {
      assert forall c :: StandIns(resolved, c) == {};
      RenamedIs(desired, resolved, desired);
      return desired, [];
    }
    var entryFor := EntryFor(resolved, SortedKeys(resolved.Keys));
    forall c | c in entryFor ensures entryFor[c] == Greatest(StandIns(resolved, c)) {
      GreatestIs(StandIns(resolved, c), entryFor[c]);
    }
    out, displaced := Rename(desired, resolved, entryFor, SortedKeys(desired.Keys));
    RenamedIs(desired, resolved, out);
  }

  lemma RenamedIsPart(canonical: map<string, Server>, through: map<string, Server>, resolved: map<string, string>)
    requires PartOf(through, canonical)
    ensures PartOf(Renamed(through, resolved), Renamed(canonical, resolved))
  {
    forall e | e in Renamed(through, resolved) ensures e in Renamed(canonical, resolved) {
      assert StandsFor(resolved, e) in canonical;
    }
  }

  lemma RenamedStaysTraceless(codec: Codec, canonical: map<string, Server>, through: map<string, Server>,
                              resolved: map<string, string>)
    requires PartOf(through, canonical)
    requires EmitsObjects(codec, through) && EmitsObjects(codec, canonical) && Traceless(codec, through, canonical)
    ensures var t, c := Renamed(through, resolved), Renamed(canonical, resolved);
            EmitsObjects(codec, t) && EmitsObjects(codec, c) && Traceless(codec, t, c)
  {
    var t, c := Renamed(through, resolved), Renamed(canonical, resolved);
    assert forall e :: e in c ==> c[e] == canonical[StandsFor(resolved, e)];
    assert forall e :: e in t ==> t[e] == through[StandsFor(resolved, e)];
  }

  /** Gateway and direct servers are renamed alike, so under a client's own names ejecting undoes
      the gateway under the same condition. */
  lemma EjectUndoesGatewayByAnyName(codec: Codec, current: Entries, canonical: map<string, Server>,
                                    through: map<string, Server>, resolved: map<string, string>, managed: set<string>)
    requires PartOf(through, canonical)
    requires EmitsObjects(codec, through) && EmitsObjects(codec, canonical) && Traceless(codec, through, canonical)
    ensures var t, c := Renamed(through, resolved), Renamed(canonical, resolved);
            EmitsObjects(codec, c)
            && (Ejected(codec, current, t, c, managed) == Synced(codec, current, c, managed)
                <==>
                && LeftOutLoseNothing(codec, current, c, t, managed)
                && (Target(current, t, managed) == {} ==> Target(current, c, managed) == {}))
  {
    RenamedIsPart(canonical, through, resolved);
    RenamedStaysTraceless(codec, canonical, through, resolved);
    EjectUndoesGateway(codec, current, Renamed(canonical, resolved), Renamed(through, resolved), managed);
  }

  /** What a server is called: the last in order of the entries that stand for it, else its own name
      unless that stands for another server. */
  lemma CalledExactly(resolved: map<string, string>, c: string, e: string)
    ensures GoesBy(resolved, c) == Some(e) <==>
              || (e in resolved && resolved[e] == c
                  && forall x :: x in resolved && resolved[x] == c && x != e ==> Less(x, e))
              || (e == c && forall x :: x in resolved ==> resolved[x] != c && x != c)
  {
    var entries := StandIns(resolved, c);
    if entries != {} {
      var g := Greatest(entries);
      assert g in resolved && resolved[g] == c;
      forall x | x in resolved && resolved[x] == c && x != g ensures Less(x, g) && !Less(g, x) {
        assert x in entries && AtMost(x, g);
        LessAsymmetric(x, g);
      }
    } else {
      forall x | x in resolved ensures resolved[x] != c { assert x !in entries; }
    }
  }
}
