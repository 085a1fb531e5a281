/** Tool definition pins: what a server's tools were when they were pinned, how the current
    list disagrees, and what is reported about it over time. */
module Pins {
  import opened Common
  import opened Text

  /** Schema version of a pin file this build writes. */
  const VERSION: nat := 1

  datatype ToolPin = ToolPin(hash: string, descLen: nat)

  /** One tool as the gateway just saw it. */
  datatype Fingerprint = Fingerprint(name: string, hash: string, descLen: nat)

  datatype Change = Changed | Added | Removed

  datatype DriftEvent = DriftEvent(tool: string, change: Change, at: nat, before: Option<nat>, after: Option<nat>)

  /** An event minus its timestamp. */
  datatype Shape = Shape(tool: string, change: Change, before: Option<nat>, after: Option<nat>)

  function ShapeOf(e: DriftEvent): Shape { Shape(e.tool, e.change, e.before, e.after) }

  datatype PinFile = PinFile(version: nat, server: string, pinnedAt: nat, tools: map<string, ToolPin>,
                             drift: seq<DriftEvent>)

  /** The list by name; a name listed twice keeps its last entry. */
  function Seen(current: seq<Fingerprint>): map<string, Fingerprint> {
    if current == [] then map[]
    else
      var last := current[|current| - 1];
      Seen(current[..|current| - 1])[last.name := last]
  }

  function PinsOf(current: seq<Fingerprint>): map<string, ToolPin> {
    var seen := Seen(current);
    map name | name in seen :: ToolPin(seen[name].hash, seen[name].descLen)
  }

  // ---- the comparison ----

  /** How one name disagrees, if it does. */
  function Difference(pinned: map<string, ToolPin>, seen: map<string, Fingerprint>, name: string, at: nat)
    : Option<DriftEvent>
  {
    if name in seen && name in pinned then
      if seen[name].hash == pinned[name].hash then None
      else Some(DriftEvent(name, Changed, at, Some(pinned[name].descLen), Some(seen[name].descLen)))
    else if name in seen then Some(DriftEvent(name, Added, at, None, Some(seen[name].descLen)))
    else if name in pinned then Some(DriftEvent(name, Removed, at, Some(pinned[name].descLen), None))
    else None
  }

  function Drifted(pinned: map<string, ToolPin>, seen: map<string, Fingerprint>): set<string> {
    set name | name in pinned.Keys + seen.Keys && Difference(pinned, seen, name, 0).Some?
  }

  /** Every name that disagrees, once, in name order. */
  function Comparison(pinned: map<string, ToolPin>, current: seq<Fingerprint>, at: nat): seq<DriftEvent> {
    var seen := Seen(current);
    var names := SortedKeys(Drifted(pinned, seen));
    seq(|names|, i requires 0 <= i < |names| =>
      assert names[i] in Drifted(pinned, seen);
      Difference(pinned, seen, names[i], at).value)
  }

  ghost predicate DistinctTools(es: seq<DriftEvent>) {
    forall i, j :: 0 <= i < j < |es| ==> es[i].tool != es[j].tool
  }

  function ToolsOf(es: seq<DriftEvent>): seq<string> {
    seq(|es|, i requires 0 <= i < |es| => es[i].tool)
  }

  ghost predicate InToolOrder(es: seq<DriftEvent>) {
    forall i, j :: 0 <= i < j < |es| ==> Less(es[i].tool, es[j].tool)
  }

  function Placed(e: DriftEvent, es: seq<DriftEvent>): (r: seq<DriftEvent>)
    ensures |r| == |es| + 1
    ensures forall x :: x in r <==> x == e || x in es
  {
    if es == [] then [e]
    else if Less(e.tool, es[0].tool) then [e] + es
    else [es[0]] + Placed(e, es[1..])
  }

  /** The stable sort by tool name. */
  function SortedByTool(es: seq<DriftEvent>): (r: seq<DriftEvent>)
    ensures |r| == |es|
    ensures forall x :: x in r <==> x in es
  {
    if es == [] then []
    else
      var last := |es| - 1;
      assert es == es[..last] + [es[last]];
      Placed(es[last], SortedByTool(es[..last]))
  }

  lemma {:induction false} PlacedInOrder(e: DriftEvent, es: seq<DriftEvent>)
    requires InToolOrder(es) && forall x :: x in es ==> x.tool != e.tool
    ensures InToolOrder(Placed(e, es))
  {
    if es != [] {
      LessTotal(e.tool, es[0].tool);
      if Less(e.tool, es[0].tool) {
        forall i | 0 <= i < |es| ensures Less(e.tool, es[i].tool) {
          if i > 0 { LessTransitive(e.tool, es[0].tool, es[i].tool); }
        }
      } else {
        PlacedInOrder(e, es[1..]);
        var rest := Placed(e, es[1..]);
        forall i | 0 <= i < |rest| ensures Less(es[0].tool, rest[i].tool) {
          assert rest[i] in rest;
        }
      }
    }
  }

  lemma {:induction false} SortedInOrder(es: seq<DriftEvent>)
    requires DistinctTools(es)
    ensures InToolOrder(SortedByTool(es))
  {
    if es != [] {
      var last := |es| - 1;
      SortedInOrder(es[..last]);
      forall x | x in SortedByTool(es[..last]) ensures x.tool != es[last].tool {
        var i :| 0 <= i < last && es[i] == x;
      }
      PlacedInOrder(es[last], SortedByTool(es[..last]));
    }
  }

  lemma DriftedNames(es: seq<DriftEvent>, pinned: map<string, ToolPin>, seen: map<string, Fingerprint>, at: nat)
    requires forall e: DriftEvent :: e in es <==> Difference(pinned, seen, e.tool, at) == Some(e)
    ensures forall n :: n in Drifted(pinned, seen) <==> n in ToolsOf(es)
  {
    forall n | n in Drifted(pinned, seen) ensures n in ToolsOf(es) {
      var e := Difference(pinned, seen, n, at).value;
      assert e in es;
      var i :| 0 <= i < |es| && es[i] == e;
      assert ToolsOf(es)[i] == n;
    }
    forall i | 0 <= i < |es| ensures ToolsOf(es)[i] in Drifted(pinned, seen) {
      assert es[i] in es;
    }
  }

  /** Events in tool order that are exactly the differences are the comparison. */
  lemma ComparisonUnique(es: seq<DriftEvent>, pinned: map<string, ToolPin>, current: seq<Fingerprint>, at: nat)
    requires InToolOrder(es)
    requires forall e: DriftEvent :: e in es <==> Difference(pinned, Seen(current), e.tool, at) == Some(e)
    ensures es == Comparison(pinned, current, at)
  {
    var seen := Seen(current);
    var names := SortedKeys(Drifted(pinned, seen));
    DriftedNames(es, pinned, seen, at);
    SortedUnique(ToolsOf(es), names);
    forall i | 0 <= i < |es| ensures Difference(pinned, seen, names[i], at) == Some(es[i]) {
      assert es[i] in es && es[i].tool == ToolsOf(es)[i];
    }
  }

  /** The comparison holds exactly the differences. */
  lemma ComparisonMembers(pinned: map<string, ToolPin>, current: seq<Fingerprint>, at: nat, e: DriftEvent)
    ensures e in Comparison(pinned, current, at) <==> Difference(pinned, Seen(current), e.tool, at) == Some(e)
  {
    var seen, es := Seen(current), Comparison(pinned, current, at);
    var drifted := Drifted(pinned, seen);
    var names := SortedKeys(drifted);
    assert |es| == |names|;
    forall k | 0 <= k < |names|
      ensures Difference(pinned, seen, names[k], at) == Some(es[k]) && es[k].tool == names[k]
    {
      assert names[k] in drifted;
    }
    if Difference(pinned, seen, e.tool, at) == Some(e) {
      assert e.tool in drifted;
      assert e.tool in names;
      var k :| 0 <= k < |names| && names[k] == e.tool;
      assert es[k] == e;
    }
  }

  /** The differences of some names, in the order of the names. */
  function DifferencesOf(pinned: map<string, ToolPin>, seen: map<string, Fingerprint>, names: seq<string>, at: nat)
    : seq<DriftEvent>
  {
    if names == [] then []
    else
      var last := |names| - 1;
      var d := Difference(pinned, seen, names[last], at);
      DifferencesOf(pinned, seen, names[..last], at) + if d.Some? then [d.value] else []
  }

  function Unseen(seen: map<string, Fingerprint>, names: seq<string>): seq<string> {
    if names == [] then []
    else
      var last := |names| - 1;
      Unseen(seen, names[..last]) + if names[last] in seen then [] else [names[last]]
  }

  lemma {:induction false} DifferencesMembers(pinned: map<string, ToolPin>, seen: map<string, Fingerprint>,
                                              names: seq<string>, at: nat, e: DriftEvent)
    ensures e in DifferencesOf(pinned, seen, names, at) <==>
            e.tool in names && Difference(pinned, seen, e.tool, at) == Some(e)
  {
    if names != [] {
      var last := |names| - 1;
      DifferencesMembers(pinned, seen, names[..last], at, e);
      assert names == names[..last] + [names[last]];
    }
  }

  lemma {:induction false} UnseenMembers(seen: map<string, Fingerprint>, names: seq<string>, n: string)
    ensures n in Unseen(seen, names) <==> n in names && n !in seen
  {
    if names != [] {
      var last := |names| - 1;
      UnseenMembers(seen, names[..last], n);
      assert names == names[..last] + [names[last]];
    }
  }

  ghost predicate Distinct(names: seq<string>) {
    forall i, j :: 0 <= i < j < |names| ==> names[i] != names[j]
  }

  lemma {:induction false} DifferencesDistinct(pinned: map<string, ToolPin>, seen: map<string, Fingerprint>,
                                               names: seq<string>, at: nat)
    requires Distinct(names)
    ensures DistinctTools(DifferencesOf(pinned, seen, names, at))
  {
    if names != [] {
      var last := |names| - 1;
      DifferencesDistinct(pinned, seen, names[..last], at);
      forall e | e in DifferencesOf(pinned, seen, names[..last], at) ensures e.tool != names[last] {
        DifferencesMembers(pinned, seen, names[..last], at, e);
      }
    }
  }

  lemma {:induction false} UnseenDistinct(seen: map<string, Fingerprint>, names: seq<string>)
    requires Distinct(names)
    ensures Distinct(Unseen(seen, names))
  {
    if names != [] {
      var last := |names| - 1;
      UnseenDistinct(seen, names[..last]);
      var before := Unseen(seen, names[..last]);
      forall i | 0 <= i < |before| ensures before[i] != names[last] {
        UnseenMembers(seen, names[..last], before[i]);
      }
    }
  }

  lemma SortedDistinct(names: seq<string>)
    requires Sorted(names)
    ensures Distinct(names)
  {
    forall i, j | 0 <= i < j < |names| ensures names[i] != names[j] { LessAsymmetric(names[i], names[j]); }
  }

  /** The listed names first, then the pinned ones that are gone: sorted, that is the comparison. */
  lemma SortedDifferences(pinned: map<string, ToolPin>, current: seq<Fingerprint>, at: nat)
    ensures var seen := Seen(current);
            var events := DifferencesOf(pinned, seen, SortedKeys(seen.Keys), at)
                          + DifferencesOf(pinned, seen, Unseen(seen, SortedKeys(pinned.Keys)), at);
            SortedByTool(events) == Comparison(pinned, current, at)
  {
    var seen := Seen(current);
    var listed, gone := SortedKeys(seen.Keys), Unseen(seen, SortedKeys(pinned.Keys));
    SortedDistinct(listed);
    SortedDistinct(SortedKeys(pinned.Keys));
    UnseenDistinct(seen, SortedKeys(pinned.Keys));
    DifferencesDistinct(pinned, seen, listed, at);
    DifferencesDistinct(pinned, seen, gone, at);
    var first, second := DifferencesOf(pinned, seen, listed, at), DifferencesOf(pinned, seen, gone, at);
    forall e: DriftEvent ensures e in first + second <==> Difference(pinned, seen, e.tool, at) == Some(e) {
      DifferencesMembers(pinned, seen, listed, at, e);
      DifferencesMembers(pinned, seen, gone, at, e);
      UnseenMembers(seen, SortedKeys(pinned.Keys), e.tool);
    }
    forall x, y | x in first && y in second ensures x.tool != y.tool {
      DifferencesMembers(pinned, seen, listed, at, x);
      DifferencesMembers(pinned, seen, gone, at, y);
      UnseenMembers(seen, SortedKeys(pinned.Keys), y.tool);
    }
    assert DistinctTools(first + second);
    SortedInOrder(first + second);
    ComparisonUnique(SortedByTool(first + second), pinned, current, at);
  }

  lemma DifferencesStep(pinned: map<string, ToolPin>, seen: map<string, Fingerprint>, names: seq<string>,
                        name: string, at: nat)
    ensures var d := Difference(pinned, seen, name, at);
            DifferencesOf(pinned, seen, names + [name], at)
            == DifferencesOf(pinned, seen, names, at) + if d.Some? then [d.value] else []
  {
    assert (names + [name])[..|names|] == names;
  }

  lemma UnseenStep(seen: map<string, Fingerprint>, names: seq<string>, name: string)
    ensures Unseen(seen, names + [name]) == if name in seen then Unseen(seen, names) else Unseen(seen, names) + [name]
  {
    assert (names + [name])[..|names|] == names;
  }

  /** The listed tools that are new or no longer match their pin. */
  method CompareListed(pinned: map<string, ToolPin>, seen: map<string, Fingerprint>, listed: seq<string>, at: nat)
    returns (events: seq<DriftEvent>)
    requires forall n :: n in listed ==> n in seen
    ensures events == DifferencesOf(pinned, seen, listed, at)
  {
    events := [];
    for i := 0 to |listed|
      invariant events == DifferencesOf(pinned, seen, listed[..i], at)
    {
      var name, tool := listed[i], seen[listed[i]];
      DifferencesStep(pinned, seen, listed[..i], name, at);
      assert listed[..i + 1] == listed[..i] + [name];
      if name in pinned {
        var pin := pinned[name];
        if pin.hash != tool.hash {
          events := events + [DriftEvent(name, Changed, at, Some(pin.descLen), Some(tool.descLen))];
        }
      } else {
        events := events + [DriftEvent(name, Added, at, None, Some(tool.descLen))];
      }
    }
    assert listed[..|listed|] == listed;
  }

  /** The pinned tools the list no longer has. */
  method CompareGone(pinned: map<string, ToolPin>, seen: map<string, Fingerprint>, kept: seq<string>, at: nat)
    returns (events: seq<DriftEvent>)
    requires forall n :: n in kept ==> n in pinned
    ensures events == DifferencesOf(pinned, seen, Unseen(seen, kept), at)
  {
    events := [];
    for i := 0 to |kept|
      invariant events == DifferencesOf(pinned, seen, Unseen(seen, kept[..i]), at)
    {
      var name := kept[i];
      assert kept[..i + 1] == kept[..i] + [name];
      UnseenStep(seen, kept[..i], name);
      DifferencesStep(pinned, seen, Unseen(seen, kept[..i]), name, at);
      if name !in seen {
        events := events + [DriftEvent(name, Removed, at, Some(pinned[name].descLen), None)];
      }
    }
    assert kept[..|kept|] == kept;
  }

  /** Every way the current list disagrees with the pins, in tool-name order. */
  method Compare(pinned: map<string, ToolPin>, current: seq<Fingerprint>, at: nat) returns (events: seq<DriftEvent>)
    ensures events == Comparison(pinned, current, at)
  {
    var seen := Seen(current);
    events := CompareListed(pinned, seen, SortedKeys(seen.Keys), at);
    var gone := CompareGone(pinned, seen, SortedKeys(pinned.Keys), at);
    SortedDifferences(pinned, current, at);
    events := SortedByTool(events + gone);
  }

  // ---- read off the pins and the list ----

  /** Entry `k` is the last the list has under this name. */
  ghost predicate LastListed(current: seq<Fingerprint>, name: string, k: nat) {
    && k < |current| && current[k].name == name
    && forall j :: k < j < |current| ==> current[j].name != name
  }

  ghost predicate Listed(current: seq<Fingerprint>, name: string) { exists k: nat :: LastListed(current, name, k) }

  lemma {:induction false} SeenIsLast(current: seq<Fingerprint>, name: string)
    ensures name in Seen(current) <==> Listed(current, name)
    ensures forall k: nat :: LastListed(current, name, k) ==> Seen(current)[name] == current[k]
  {
    if current != [] {
      var n := |current| - 1;
      SeenIsLast(current[..n], name);
      if current[n].name == name {
        assert LastListed(current, name, n);
      } else {
        forall k: nat ensures LastListed(current, name, k) <==> LastListed(current[..n], name, k) {
          if k < n { assert current[..n][k] == current[k]; }
        }
      }
    }
  }

  lemma {:induction false} NeverListed(current: seq<Fingerprint>, name: string)
    ensures Listed(current, name) <==> exists k :: 0 <= k < |current| && current[k].name == name
  {
    if current != [] {
      var n := |current| - 1;
      NeverListed(current[..n], name);
      if current[n].name == name {
        assert LastListed(current, name, n);
      } else {
        assert forall k :: 0 <= k < n ==> current[..n][k] == current[k];
        if k: nat :| LastListed(current[..n], name, k) { assert LastListed(current, name, k); }
      }
    }
  }

  /** What is pinned: every listed name, as its last entry has it. */
  lemma PinnedAsListed(current: seq<Fingerprint>, name: string)
    ensures name in PinsOf(current) <==> Listed(current, name)
    ensures forall k: nat :: LastListed(current, name, k) ==>
              PinsOf(current)[name].hash == current[k].hash && PinsOf(current)[name].descLen == current[k].descLen
  {
    SeenIsLast(current, name);
  }

  /** A tool is added if the list has it and the pins do not, removed the other way round, and changed
      if both have it with different hashes; the lengths are those of the side that has it. */
  ghost predicate Disagreement(pinned: map<string, ToolPin>, current: seq<Fingerprint>, d: Shape) {
    match d.change
    case Added =>
      && d.tool !in pinned && d.before == None
      && exists k: nat :: LastListed(current, d.tool, k) && d.after == Some(current[k].descLen)
    case Removed =>
      && d.tool in pinned && d.before == Some(pinned[d.tool].descLen)
      && (forall k :: 0 <= k < |current| ==> current[k].name != d.tool) && d.after == None
    case Changed =>
      && d.tool in pinned && d.before == Some(pinned[d.tool].descLen)
      && exists k: nat :: LastListed(current, d.tool, k) && current[k].hash != pinned[d.tool].hash
                     && d.after == Some(current[k].descLen)
  }

  /** Those are the events of a comparison, ... */
  lemma EventsAreDisagreements(pinned: map<string, ToolPin>, current: seq<Fingerprint>, at: nat, e: DriftEvent)
    ensures e in Comparison(pinned, current, at) <==> e.at == at && Disagreement(pinned, current, ShapeOf(e))
  {
    ComparisonMembers(pinned, current, at, e);
    SeenIsLast(current, e.tool);
    NeverListed(current, e.tool);
  }

  /** ... by tool name, one for each tool. */
  lemma EventsInOrder(pinned: map<string, ToolPin>, current: seq<Fingerprint>, at: nat)
    ensures InToolOrder(Comparison(pinned, current, at))
  {
    var names := SortedKeys(Drifted(pinned, Seen(current)));
    forall i | 0 <= i < |names| ensures Comparison(pinned, current, at)[i].tool == names[i] {
      assert names[i] in Drifted(pinned, Seen(current));
    }
  }
}
