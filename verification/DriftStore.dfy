/** The pin files of a state directory: taking pins, observing lists against them, and what
    the recorded drift means after any number of observations. */
module DriftStore {
  import opened Common
  import opened Text
  import opened CanonicalJson
  import opened Pins

  function Shapes(es: seq<DriftEvent>): seq<Shape> {
    seq(|es|, i requires 0 <= i < |es| => ShapeOf(es[i]))
  }

  /** The first event on file with this shape. */
  function Recorded(drift: seq<DriftEvent>, shape: Shape): (r: Option<DriftEvent>)
    ensures r.Some? ==> r.value in drift && ShapeOf(r.value) == shape
    ensures r.None? <==> shape !in Shapes(drift)
  {
    if drift == [] then None
    else if ShapeOf(drift[0]) == shape then
      assert Shapes(drift)[0] == shape;
      Some(drift[0])
    else
      assert Shapes(drift) == [ShapeOf(drift[0])] + Shapes(drift[1..]);
      Recorded(drift[1..], shape)
  }

  /** An event already on file keeps the time it was first noticed at. */
  function Dated(e: DriftEvent, drift: seq<DriftEvent>): DriftEvent {
    var earlier := Recorded(drift, ShapeOf(e));
    if earlier.Some? then e.(at := earlier.value.at) else e
  }

  function Carried(events: seq<DriftEvent>, drift: seq<DriftEvent>): seq<DriftEvent> {
    seq(|events|, i requires 0 <= i < |events| => Dated(events[i], drift))
  }

  function NewFile(server: string, tools: seq<Fingerprint>, now: nat): PinFile {
    PinFile(VERSION, server, now, PinsOf(tools), [])
  }

  /** One observation: the file afterwards, and the drift worth reporting. */
  function Observed(file: Option<PinFile>, server: string, tools: seq<Fingerprint>, now: nat)
    : (PinFile, seq<DriftEvent>)
  {
    if file.None? then (NewFile(server, tools, now), [])
    else if file.value.version > VERSION then (file.value, [])
    else
      var events := Comparison(file.value.tools, tools, now);
      if Shapes(events) == Shapes(file.value.drift) then (file.value, [])
      else
        var dated := Carried(events, file.value.drift);
        (file.value.(drift := dated), dated)
  }

  class PinStore {
    /** The pin file of each server that has one. */
    var files: map<string, PinFile>

    constructor ()
      ensures files == map[]
    {
      files := map[];
    }

    function Read(server: string): Option<PinFile>
      reads this
    {
      if server in files then Some(files[server]) else None
    }

    method Pin(server: string, tools: seq<Fingerprint>, now: nat) returns (file: PinFile)
      modifies this
      ensures file == NewFile(server, tools, now)
      ensures files == old(files)[server := file]
    {
      file := PinFile(VERSION, server, now, PinsOf(tools), []);
      files := files[server := file];
    }

    method Observe(server: string, tools: seq<Fingerprint>, now: nat) returns (reported: seq<DriftEvent>)
      modifies this
      ensures var existing := if server in old(files) then Some(old(files)[server]) else None;
              var (file, drift) := Observed(existing, server, tools, now);
              reported == drift && files == old(files)[server := file]
    {
      var existing := Read(server);
      if existing.None? {
        var _ := Pin(server, tools, now);
        return [];
      }
      assert files == files[server := existing.value];
      if existing.value.version > VERSION {
        return [];
      }
      var events := Compare(existing.value.tools, tools, now);
      if |events| == |existing.value.drift|
         && forall i | 0 <= i < |events| :: ShapeOf(events[i]) == ShapeOf(existing.value.drift[i]) {
        assert Shapes(events) == Shapes(existing.value.drift);
        return [];
      }
      assert Shapes(events) != Shapes(existing.value.drift) by {
        if |events| == |existing.value.drift| {
          var i :| 0 <= i < |events| && ShapeOf(events[i]) != ShapeOf(existing.value.drift[i]);
          assert Shapes(events)[i] != Shapes(existing.value.drift)[i];
        }
      }
      events := Carried(events, existing.value.drift);
      files := files[server := existing.value.(drift := events)];
      return events;
    }
  }

  // ---- runs of observations ----

  datatype Observation = Observation(tools: seq<Fingerprint>, now: nat)

  /** The file after every list of a run was observed, oldest first. */
  function Watched(file: PinFile, run: seq<Observation>): PinFile {
    if run == [] then file
    else
      var last := run[|run| - 1];
      Observed(Some(Watched(file, run[..|run| - 1])), file.server, last.tools, last.now).0
  }

  lemma CarriedKeepsShapes(events: seq<DriftEvent>, drift: seq<DriftEvent>)
    ensures Shapes(Carried(events, drift)) == Shapes(events)
  {
  }

  lemma ObservationKeepsPins(file: PinFile, server: string, tools: seq<Fingerprint>, now: nat)
    ensures var after := Observed(Some(file), server, tools, now).0;
            after == file.(drift := after.drift)
    ensures file.version <= VERSION ==>
              Shapes(Observed(Some(file), server, tools, now).0.drift) == Shapes(Comparison(file.tools, tools, now))
  {
    CarriedKeepsShapes(Comparison(file.tools, tools, now), file.drift);
  }

  lemma {:induction false} RunKeepsPins(file: PinFile, run: seq<Observation>)
    ensures var after := Watched(file, run); after == file.(drift := after.drift)
  {
    if run != [] {
      var last := run[|run| - 1];
      RunKeepsPins(file, run[..|run| - 1]);
      ObservationKeepsPins(Watched(file, run[..|run| - 1]), file.server, last.tools, last.now);
    }
  }

  /** What a list disagrees with the pins about, times aside. */
  function DriftOf(file: PinFile, o: Observation): seq<Shape> {
    Shapes(Comparison(file.tools, o.tools, o.now))
  }

  /** The recorded drift is the last list's disagreement with the pins, whatever came before;
      the pins themselves never move. */
  lemma DriftIsCurrent(file: PinFile, run: seq<Observation>)
    requires run != [] && file.version <= VERSION
    ensures Shapes(Watched(file, run).drift) == DriftOf(file, run[|run| - 1])
    ensures Watched(file, run).tools == file.tools
  {
    var last := run[|run| - 1];
    RunKeepsPins(file, run[..|run| - 1]);
    ObservationKeepsPins(Watched(file, run[..|run| - 1]), file.server, last.tools, last.now);
  }

  /** The disagreement at each observation of a run. */
  function History(file: PinFile, run: seq<Observation>): seq<seq<Shape>> {
    seq(|run|, i requires 0 <= i < |run| => DriftOf(file, run[i]))
  }

  function Times(run: seq<Observation>): seq<nat> {
    seq(|run|, i requires 0 <= i < |run| => run[i].now)
  }

  /** Entry `i` is where the shape last began to be present, to the end of the history. */
  ghost predicate PresentSince(history: seq<seq<Shape>>, shape: Shape, i: nat) {
    && i < |history|
    && (forall j :: i <= j < |history| ==> shape in history[j])
    && (i > 0 ==> shape !in history[i - 1])
  }

  /** The event is dated by the entry since which its shape has been there. */
  ghost predicate Noticed(history: seq<seq<Shape>>, times: seq<nat>, e: DriftEvent)
    requires |times| == |history|
  {
    exists i: nat :: PresentSince(history, ShapeOf(e), i) && e.at == times[i]
  }

  lemma NoticedExtends(history: seq<seq<Shape>>, times: seq<nat>, e: DriftEvent, shapes: seq<Shape>, now: nat)
    requires |times| == |history| && ShapeOf(e) in shapes
    requires Noticed(history, times, e) || (e.at == now && (history != [] ==> ShapeOf(e) !in history[|history| - 1]))
    ensures Noticed(history + [shapes], times + [now], e)
  {
    if Noticed(history, times, e) {
      var i: nat :| PresentSince(history, ShapeOf(e), i) && e.at == times[i];
      assert PresentSince(history + [shapes], ShapeOf(e), i);
    } else {
      assert PresentSince(history + [shapes], ShapeOf(e), |history|);
    }
  }

  /** An event recorded by an observation was on file with the same shape and time, or is new. */
  lemma EventOrigin(file: PinFile, server: string, tools: seq<Fingerprint>, now: nat, e: DriftEvent)
    requires file.version <= VERSION && e in Observed(Some(file), server, tools, now).0.drift
    ensures ShapeOf(e) in Shapes(Comparison(file.tools, tools, now))
    ensures e in file.drift || (e.at == now && ShapeOf(e) !in Shapes(file.drift))
  {
    var after := Observed(Some(file), server, tools, now).0;
    var events := Comparison(file.tools, tools, now);
    ObservationKeepsPins(file, server, tools, now);
    var k :| 0 <= k < |after.drift| && after.drift[k] == e;
    assert Shapes(after.drift)[k] == ShapeOf(e);
    assert ShapeOf(e) in Shapes(after.drift);
    if Shapes(events) != Shapes(file.drift) {
      EventTime(file.tools, tools, now, k);
      assert e == Dated(events[k], file.drift);
    }
  }

  lemma HistoryStep(file: PinFile, run: seq<Observation>)
    requires run != []
    ensures var before, last := run[..|run| - 1], run[|run| - 1];
            && History(file, run) == History(file, before) + [DriftOf(file, last)]
            && Times(run) == Times(before) + [last.now]
  {
    HistoriesStep(file, run);
  }

  lemma HistoriesStep(file: PinFile, run: seq<Observation>)
    requires run != []
    ensures History(file, run) == History(file, run[..|run| - 1]) + [DriftOf(file, run[|run| - 1])]
  {
    var n := |run| - 1;
    forall i | 0 <= i < n ensures History(file, run)[i] == History(file, run[..n])[i] {
      assert run[..n][i] == run[i];
    }
  }

  lemma LastEventOrigin(file: PinFile, run: seq<Observation>, e: DriftEvent)
    requires file.version <= VERSION && file.drift == []
    requires run != [] && e in Watched(file, run).drift
    ensures ShapeOf(e) in DriftOf(file, run[|run| - 1])
    ensures var before := run[..|run| - 1];
            || e in Watched(file, before).drift
            || (e.at == run[|run| - 1].now && (before != [] ==> ShapeOf(e) !in DriftOf(file, before[|before| - 1])))
  {
    var before, last := run[..|run| - 1], run[|run| - 1];
    RunKeepsPins(file, before);
    EventOrigin(Watched(file, before), file.server, last.tools, last.now, e);
    if before != [] { DriftIsCurrent(file, before); }
  }

  /** After any run over freshly taken pins, every recorded event is dated by the observation
      since which it has been there without a break. */
  lemma {:induction false} FirstNoticed(file: PinFile, run: seq<Observation>, e: DriftEvent)
    requires file.version <= VERSION && file.drift == []
    requires e in Watched(file, run).drift
    ensures Noticed(History(file, run), Times(run), e)
  {
    if run != [] {
      var before, last := run[..|run| - 1], run[|run| - 1];
      LastEventOrigin(file, run, e);
      if e in Watched(file, before).drift { FirstNoticed(file, before, e); }
      HistoryStep(file, run);
      NoticedExtends(History(file, before), Times(before), e, DriftOf(file, last), last.now);
    }
  }

  lemma EventTime(pinned: map<string, ToolPin>, tools: seq<Fingerprint>, at: nat, k: nat)
    requires k < |Comparison(pinned, tools, at)|
    ensures Comparison(pinned, tools, at)[k].at == at
  {
    var names := SortedKeys(Drifted(pinned, Seen(tools)));
    assert names[k] in Drifted(pinned, Seen(tools));
  }

  /** Listing the same tools again, at any later time, reports nothing and changes nothing. */
  lemma RepeatReportsNothing(file: Option<PinFile>, server: string, tools: seq<Fingerprint>, t: nat, u: nat)
    ensures var after := Observed(file, server, tools, t).0;
            Observed(Some(after), server, tools, u) == (after, [])
  {
    if file.Some? && file.value.version <= VERSION {
      ObservationKeepsPins(file.value, server, tools, t);
    }
  }

  /** Accepting a list makes observing that list report nothing, and clears what had drifted. */
  lemma PinningSettles(server: string, tools: seq<Fingerprint>, t: nat, u: nat)
    ensures var file := NewFile(server, tools, t);
            file.drift == [] && Observed(Some(file), server, tools, u) == (file, [])
  {
  }

  // ---- what a hash mismatch says about the definitions ----

  /** The fingerprint of a definition, for a given hash. */
  function FingerprintOf(hash: string -> string, d: Definition): Fingerprint {
    Fingerprint(d.name, hash(Preimage(d)), Bytes(d.description))
  }

  function Fingerprints(hash: string -> string, ds: seq<Definition>): seq<Fingerprint> {
    seq(|ds|, i requires 0 <= i < |ds| => FingerprintOf(hash, ds[i]))
  }

  ghost predicate Injective(hash: string -> string) {
    forall x, y :: hash(x) == hash(y) ==> x == y
  }

  ghost predicate UniqueNames(ds: seq<Definition>) {
    forall i, j :: 0 <= i < j < |ds| ==> ds[i].name != ds[j].name
  }

  lemma {:induction false} SeenDefinition(hash: string -> string, ds: seq<Definition>, i: nat)
    requires UniqueNames(ds) && i < |ds|
    ensures ds[i].name in Seen(Fingerprints(hash, ds))
    ensures Seen(Fingerprints(hash, ds))[ds[i].name] == FingerprintOf(hash, ds[i])
  {
    var n := |ds| - 1;
    var all := Fingerprints(hash, ds);
    assert all[..n] == Fingerprints(hash, ds[..n]);
    if i < n { SeenDefinition(hash, ds[..n], i); }
  }

  /** With a hash that does not collide, a tool present in the pinned and in the current list
      is reported as changed exactly when its definition is not the same up to key order. */
  lemma ChangedMeansRedefined(hash: string -> string, server: string, pinned: seq<Definition>, i: nat,
                              current: seq<Definition>, j: nat, t: nat, u: nat)
    requires Injective(hash) && UniqueNames(pinned) && UniqueNames(current)
    requires i < |pinned| && j < |current| && pinned[i].name == current[j].name
    ensures var file := NewFile(server, Fingerprints(hash, pinned), t);
            var drift := Observed(Some(file), server, Fingerprints(hash, current), u).0.drift;
            (exists e :: e in drift && e.tool == pinned[i].name && e.change == Changed)
            <==> !SameDefinition(pinned[i], current[j])
  {
    var name := pinned[i].name;
    var file := NewFile(server, Fingerprints(hash, pinned), t);
    var tools := Fingerprints(hash, current);
    var drift := Observed(Some(file), server, tools, u).0.drift;
    SeenDefinition(hash, pinned, i);
    SeenDefinition(hash, current, j);
    PreimageDecidesDefinition(pinned[i], current[j]);
    ObservationKeepsPins(file, server, tools, u);
    var d := Difference(file.tools, Seen(tools), name, u);
    assert d.Some? <==> !SameDefinition(pinned[i], current[j]);
    ShapeMembers(drift, Comparison(file.tools, tools, u), name, Changed);
    forall e: DriftEvent ensures e in Comparison(file.tools, tools, u) && e.tool == name ==> d == Some(e) {
      ComparisonMembers(file.tools, tools, u, e);
    }
    if d.Some? { ComparisonMembers(file.tools, tools, u, d.value); }
  }

  lemma ShapeMembers(xs: seq<DriftEvent>, ys: seq<DriftEvent>, tool: string, change: Change)
    requires Shapes(xs) == Shapes(ys)
    ensures (exists e :: e in xs && e.tool == tool && e.change == change)
       <==> (exists e :: e in ys && e.tool == tool && e.change == change)
  {
    assert forall k :: 0 <= k < |xs| ==> Shapes(xs)[k] == ShapeOf(ys[k]);
    if e :| e in xs && e.tool == tool && e.change == change {
      var k :| 0 <= k < |xs| && xs[k] == e;
      assert ys[k] in ys;
    }
    if e :| e in ys && e.tool == tool && e.change == change {
      var k :| 0 <= k < |ys| && ys[k] == e;
      assert xs[k] in xs;
    }
  }
}
