/** What an observation reports of a list, and what it cannot tell from the list before it. */
module DriftReports {
  import opened Common
  import opened CanonicalJson
  import opened DriftStore
  import opened Pins
  import opened Text

  function Report(file: PinFile, o: Observation): seq<DriftEvent> {
    Observed(Some(file), file.server, o.tools, o.now).1
  }

  // ---- one list against the one before it ----

  /** How one name disagrees with the pins, times aside. */
  function ShapeAt(pinned: map<string, ToolPin>, seen: map<string, Fingerprint>, name: string): Option<Shape> {
    var d := Difference(pinned, seen, name, 0);
    if d.Some? then Some(ShapeOf(d.value)) else None
  }

  /** Two lists show the same of a name: both have it or neither, both as pinned or neither, and if
      not as pinned with descriptions of one length. */
  predicate LooksTheSame(pinned: map<string, ToolPin>, a: map<string, Fingerprint>, b: map<string, Fingerprint>,
                         name: string)
  {
    && (name in a <==> name in b)
    && (name in a && name in pinned ==> (a[name].hash == pinned[name].hash <==> b[name].hash == pinned[name].hash))
    && (name in a && !(name in pinned && a[name].hash == pinned[name].hash) ==> a[name].descLen == b[name].descLen)
  }

  ghost predicate AllLookTheSame(pinned: map<string, ToolPin>, a: map<string, Fingerprint>,
                                 b: map<string, Fingerprint>)
  {
    forall n :: LooksTheSame(pinned, a, b, n)
  }

  lemma ShapeIgnoresTime(pinned: map<string, ToolPin>, seen: map<string, Fingerprint>, name: string, at: nat)
    ensures ShapeAt(pinned, seen, name).None? <==> Difference(pinned, seen, name, at).None?
    ensures Difference(pinned, seen, name, at).Some? ==>
              ShapeAt(pinned, seen, name) == Some(ShapeOf(Difference(pinned, seen, name, at).value))
              && Difference(pinned, seen, name, at).value.tool == name
  {
  }

  lemma ShapeAtDecides(pinned: map<string, ToolPin>, a: map<string, Fingerprint>, b: map<string, Fingerprint>,
                       name: string)
    ensures ShapeAt(pinned, a, name) == ShapeAt(pinned, b, name) <==> LooksTheSame(pinned, a, b, name)
  {
  }

  lemma ShapeThere(es: seq<DriftEvent>, e: DriftEvent)
    requires e in es
    ensures ShapeOf(e) in Shapes(es)
  {
    var k :| 0 <= k < |es| && es[k] == e;
    assert Shapes(es)[k] == ShapeOf(e);
  }

  /** A comparison has the shape each name has, and no other. */
  lemma ShapesMembers(pinned: map<string, ToolPin>, tools: seq<Fingerprint>, at: nat, shape: Shape)
    ensures shape in Shapes(Comparison(pinned, tools, at)) <==> ShapeAt(pinned, Seen(tools), shape.tool) == Some(shape)
  {
    var es, seen := Comparison(pinned, tools, at), Seen(tools);
    ShapeIgnoresTime(pinned, seen, shape.tool, at);
    if shape in Shapes(es) { HasShape(pinned, tools, at, shape); }
    if ShapeAt(pinned, seen, shape.tool) == Some(shape) {
      var e := Difference(pinned, seen, shape.tool, at).value;
      ComparisonMembers(pinned, tools, at, e);
      ShapeThere(es, e);
    }
  }

  lemma HasShape(pinned: map<string, ToolPin>, tools: seq<Fingerprint>, at: nat, shape: Shape)
    requires shape in Shapes(Comparison(pinned, tools, at))
    ensures Difference(pinned, Seen(tools), shape.tool, at).Some?
    ensures ShapeOf(Difference(pinned, Seen(tools), shape.tool, at).value) == shape
  {
    var es := Comparison(pinned, tools, at);
    var k :| 0 <= k < |Shapes(es)| && Shapes(es)[k] == shape;
    ComparisonMembers(pinned, tools, at, es[k]);
  }

  lemma ShapeInBoth(pinned: map<string, ToolPin>, xs: seq<Fingerprint>, t: nat, ys: seq<Fingerprint>, u: nat,
                    shape: Shape)
    requires Shapes(Comparison(pinned, xs, t)) == Shapes(Comparison(pinned, ys, u))
    ensures ShapeAt(pinned, Seen(xs), shape.tool) == Some(shape)
            <==> ShapeAt(pinned, Seen(ys), shape.tool) == Some(shape)
  {
    ShapesMembers(pinned, xs, t, shape);
    ShapesMembers(pinned, ys, u, shape);
  }

  lemma ShapeOfTool(pinned: map<string, ToolPin>, seen: map<string, Fingerprint>, n: string)
    ensures ShapeAt(pinned, seen, n).Some? ==> ShapeAt(pinned, seen, n).value.tool == n
  {
  }

  lemma SameAt(pinned: map<string, ToolPin>, xs: seq<Fingerprint>, t: nat, ys: seq<Fingerprint>, u: nat, n: string)
    requires Shapes(Comparison(pinned, xs, t)) == Shapes(Comparison(pinned, ys, u))
    ensures ShapeAt(pinned, Seen(xs), n) == ShapeAt(pinned, Seen(ys), n)
  {
    ShapeOfTool(pinned, Seen(xs), n);
    ShapeOfTool(pinned, Seen(ys), n);
    if ShapeAt(pinned, Seen(xs), n).Some? {
      ShapeInBoth(pinned, xs, t, ys, u, ShapeAt(pinned, Seen(xs), n).value);
    } else if ShapeAt(pinned, Seen(ys), n).Some? {
      ShapeInBoth(pinned, xs, t, ys, u, ShapeAt(pinned, Seen(ys), n).value);
    }
  }

  lemma LooksSame(pinned: map<string, ToolPin>, xs: seq<Fingerprint>, t: nat, ys: seq<Fingerprint>, u: nat)
    requires Shapes(Comparison(pinned, xs, t)) == Shapes(Comparison(pinned, ys, u))
    ensures AllLookTheSame(pinned, Seen(xs), Seen(ys))
  {
    forall n ensures LooksTheSame(pinned, Seen(xs), Seen(ys), n) {
      SameAt(pinned, xs, t, ys, u, n);
      ShapeAtDecides(pinned, Seen(xs), Seen(ys), n);
    }
  }

  /** The shapes of a comparison, name by name. */
  lemma ShapesInOrder(pinned: map<string, ToolPin>, tools: seq<Fingerprint>, at: nat)
    ensures var names := SortedKeys(Drifted(pinned, Seen(tools)));
            |Shapes(Comparison(pinned, tools, at))| == |names|
            && forall i :: 0 <= i < |names| ==>
                 Some(Shapes(Comparison(pinned, tools, at))[i]) == ShapeAt(pinned, Seen(tools), names[i])
  {
    var names := SortedKeys(Drifted(pinned, Seen(tools)));
    forall i | 0 <= i < |names|
      ensures Some(Shapes(Comparison(pinned, tools, at))[i]) == ShapeAt(pinned, Seen(tools), names[i])
    {
      assert names[i] in Drifted(pinned, Seen(tools));
      ShapeIgnoresTime(pinned, Seen(tools), names[i], at);
    }
  }

  lemma SameDrifted(pinned: map<string, ToolPin>, a: map<string, Fingerprint>, b: map<string, Fingerprint>)
    requires forall n :: ShapeAt(pinned, a, n) == ShapeAt(pinned, b, n)
    ensures Drifted(pinned, a) == Drifted(pinned, b)
  {
    forall n ensures n in Drifted(pinned, a) <==> n in Drifted(pinned, b) {
      assert ShapeAt(pinned, a, n) == ShapeAt(pinned, b, n);
    }
  }

  lemma ShapesSame(pinned: map<string, ToolPin>, xs: seq<Fingerprint>, t: nat, ys: seq<Fingerprint>, u: nat)
    requires AllLookTheSame(pinned, Seen(xs), Seen(ys))
    ensures Shapes(Comparison(pinned, xs, t)) == Shapes(Comparison(pinned, ys, u))
  {
    forall n ensures ShapeAt(pinned, Seen(xs), n) == ShapeAt(pinned, Seen(ys), n) {
      ShapeAtDecides(pinned, Seen(xs), Seen(ys), n);
    }
    SameDrifted(pinned, Seen(xs), Seen(ys));
    ShapesInOrder(pinned, xs, t);
    ShapesInOrder(pinned, ys, u);
  }

  lemma SameShapes(pinned: map<string, ToolPin>, xs: seq<Fingerprint>, t: nat, ys: seq<Fingerprint>, u: nat)
    ensures Shapes(Comparison(pinned, xs, t)) == Shapes(Comparison(pinned, ys, u))
            <==> AllLookTheSame(pinned, Seen(xs), Seen(ys))
  {
    if Shapes(Comparison(pinned, xs, t)) == Shapes(Comparison(pinned, ys, u)) { LooksSame(pinned, xs, t, ys, u); }
    if AllLookTheSame(pinned, Seen(xs), Seen(ys)) { ShapesSame(pinned, xs, t, ys, u); }
  }

  /** After the list of `x` was observed, that of `y` is passed over in silence exactly if it agrees
      with the pins or shows the same of every name: a tool redefined once more is missed when its
      new description is as long as the old one. */
  lemma SilentExactly(file: PinFile, x: Observation, y: Observation)
    requires file.version <= VERSION
    ensures var after := Observed(Some(file), file.server, x.tools, x.now).0;
            Report(after, y) == []
            <==> DriftOf(file, y) == [] || AllLookTheSame(file.tools, Seen(x.tools), Seen(y.tools))
  {
    ObservationKeepsPins(file, file.server, x.tools, x.now);
    SameShapes(file.tools, x.tools, x.now, y.tools, y.now);
  }

  // ---- read off the pins and the list ----

  lemma ShapesAreDisagreements(pinned: map<string, ToolPin>, tools: seq<Fingerprint>, at: nat, shape: Shape)
    ensures shape in Shapes(Comparison(pinned, tools, at)) <==> Disagreement(pinned, tools, shape)
  {
    var es, e := Comparison(pinned, tools, at), DriftEvent(shape.tool, shape.change, at, shape.before, shape.after);
    EventsAreDisagreements(pinned, tools, at, e);
    if e in es { ShapeThere(es, e); }
    if shape in Shapes(es) {
      var k :| 0 <= k < |Shapes(es)| && Shapes(es)[k] == shape;
      EventsAreDisagreements(pinned, tools, at, es[k]);
    }
  }

  /** An observation records a shape exactly if it is a disagreement of the list with the pins, and
      reports nothing or all it recorded: a tool it calls added is listed and not pinned, one it
      calls removed is pinned and not listed, one it calls changed is both, with another hash. */
  lemma ReportsDisagreements(file: PinFile, o: Observation, shape: Shape)
    requires file.version <= 1
    ensures var (after, reported) := Observed(Some(file), file.server, o.tools, o.now);
            && (shape in Shapes(after.drift) <==> Disagreement(file.tools, o.tools, shape))
            && (reported == [] || reported == after.drift)
            && after.version == file.version && after.server == file.server
            && after.pinnedAt == file.pinnedAt && after.tools == file.tools
  {
    ObservationKeepsPins(file, file.server, o.tools, o.now);
    ShapesAreDisagreements(file.tools, o.tools, o.now, shape);
  }

  /** A server seen for the first time is pinned as listed and a file of a later version is left
      alone; neither reports anything. */
  lemma NothingToCompare(file: Option<PinFile>, server: string, tools: seq<Fingerprint>, now: nat, name: string)
    requires file.None? || file.value.version > 1
    ensures var (after, reported) := Observed(file, server, tools, now);
            && reported == []
            && (file.Some? ==> after == file.value)
            && (file.None? ==>
                  && after.version == 1 && after.server == server && after.pinnedAt == now && after.drift == []
                  && (name in after.tools <==> Listed(tools, name))
                  && forall k: nat :: LastListed(tools, name, k) ==>
                       after.tools[name] == ToolPin(tools[k].hash, tools[k].descLen))
  {
    PinnedAsListed(tools, name);
  }

  // ---- runs ----

  /** What is reported after any run over a file, whose last list was `x`: nothing if the
      disagreement is the one `x` had, else all of it, old and new. */
  lemma ReportedExactly(file: PinFile, run: seq<Observation>, y: Observation)
    requires file.version <= VERSION && run != []
    ensures var before, now := DriftOf(file, run[|run| - 1]), DriftOf(file, y);
            Shapes(Report(Watched(file, run), y)) == if now == before then [] else now
  {
    DriftIsCurrent(file, run);
    RunKeepsPins(file, run);
    CarriedKeepsShapes(Comparison(file.tools, y.tools, y.now), Watched(file, run).drift);
  }

  /** So the report holds only what is new exactly if the disagreement did not change, or keeps
      nothing of the one before; and what is new is always in it. */
  lemma OnlyNewExactly(file: PinFile, run: seq<Observation>, y: Observation)
    requires file.version <= VERSION && run != []
    ensures var before, now := DriftOf(file, run[|run| - 1]), DriftOf(file, y);
            var reported := Shapes(Report(Watched(file, run), y));
            && ((forall shape :: shape in reported ==> shape !in before)
                <==> now == before || forall shape :: shape in now ==> shape !in before)
            && forall shape :: shape in now && shape !in before ==> shape in reported
  {
    ReportedExactly(file, run, y);
  }

  // ---- a tool redefined twice ----

  lemma SeenAlone(f: Fingerprint)
    ensures Seen([f]) == map[f.name := f]
  {
    assert [f][..0] == [];
  }

  /** A single tool `p`, seen as `x` and then as `y`. */
  lemma SilentAlone(file: PinFile, p: Fingerprint, x: Fingerprint, u: nat, y: Fingerprint, v: nat)
    requires file.version <= VERSION && file.tools == PinsOf([p]) && p.name == x.name == y.name && x.hash != p.hash
    ensures Report(Observed(Some(file), file.server, [x], u).0, Observation([y], v)) == []
            <==> y.hash == p.hash || x.descLen == y.descLen
  {
    SeenAlone(p);
    SeenAlone(x);
    SeenAlone(y);
    SilentExactly(file, Observation([x], u), Observation([y], v));
    assert AllLookTheSame(file.tools, Seen([x]), Seen([y]))
      <==> LooksTheSame(file.tools, Seen([x]), Seen([y]), p.name);
    AgreesAlone(file, Observation([y], v), p.name);
  }

  lemma AgreesAlone(file: PinFile, o: Observation, name: string)
    requires file.tools.Keys == {name} && Seen(o.tools).Keys == {name}
    ensures DriftOf(file, o) == [] <==> Seen(o.tools)[name].hash == file.tools[name].hash
  {
    ShapesInOrder(file.tools, o.tools, o.now);
    var drifted := Drifted(file.tools, Seen(o.tools));
    if Seen(o.tools)[name].hash == file.tools[name].hash {
      assert drifted == {};
    } else {
      assert name in drifted && name in SortedKeys(drifted);
    }
  }

  /** A server pinned with `d` that was seen with another definition `e` and now lists a third one,
      `g`, is reported unless `g` is `d` again or its description is as long as that of `e`. */
  lemma SecondRedefinitionMissed(hash: string -> string, server: string, d: Definition, e: Definition, g: Definition,
                                 t: nat, u: nat, v: nat)
    requires Injective(hash) && d.name == e.name == g.name
    requires !SameDefinition(d, e)
    ensures var file := NewFile(server, [FingerprintOf(hash, d)], t);
            var after := Observed(Some(file), server, [FingerprintOf(hash, e)], u).0;
            Report(after, Observation([FingerprintOf(hash, g)], v)) == []
            <==> SameDefinition(d, g) || Bytes(e.description) == Bytes(g.description)
  {
    PreimageDecidesDefinition(d, e);
    PreimageDecidesDefinition(d, g);
    SilentAlone(NewFile(server, [FingerprintOf(hash, d)], t), FingerprintOf(hash, d), FingerprintOf(hash, e), u,
                FingerprintOf(hash, g), v);
  }
}
