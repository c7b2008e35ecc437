/** The translation of one request's graph into entity records
    (backend/graph_to_scenario/scenario.py): reading the slider data, scaling a
    slider value into an installed capacity, selecting and normalising a
    time-series profile, validating the graph nodes one by one, and shaping the
    solved values for the charts.

    File contents are inputs here: `profileFiles` maps a profile file name to
    the numbers it holds (a name that is absent stands for a file that is
    missing or does not parse), and `indexFile` holds the 1-based row indices
    of the chosen timestep file (`None` when that file is missing, not chosen
    or does not parse). */
module ScenarioTranslation {
  import opened Wrappers
  import opened Text
  import opened NodeTypes

  /** A profile-name cell of the defaults sheet: a file name, or NaN. */
  datatype ProfileName = Name(file: string) | NanName

  /** One technology's row of the defaults sheet. */
  datatype TechDefaults = TechDefaults(
    capacity_cost: Scalar,
    operational_cost: Scalar,
    operational_lifetime: Scalar,
    record_curtailment: Scalar,
    yearly_demand: Scalar,
    energy_capacity: Scalar,
    max_installed_capacity: Scalar,
    availability_profile_name: ProfileName,
    demand_profile_name: ProfileName)

  /** A graph node as received; any of its three keys may be missing. */
  datatype GraphNode = GraphNode(id: Option<string>, kind: Option<string>, techLabel: Option<string>)

  /** The graph's node list sits under `nodes`, or else under `data.nodes`;
      a missing list is empty. */
  datatype GraphData = GraphData(nodes: seq<GraphNode>, dataNodes: seq<GraphNode>)

  function GraphNodes(g: GraphData): seq<GraphNode> {
    if |g.nodes| > 0 then g.nodes else g.dataNodes
  }

  /** One `(node id, slider value)` pair of `prodCapacities`. */
  datatype SliderEntry = SliderEntry(id: string, value: real)

  const VALID_TYPES: set<string> := {"producer", "consumer", "battery", "junction"}

  // ================================================================ sliders

  /** `modified_slider_values`: every slider id gets the `node_` prefix that
      graph node ids carry. */
  function Prefixed(caps: seq<SliderEntry>): (r: seq<SliderEntry>)
    ensures |r| == |caps|
    ensures forall k :: 0 <= k < |caps| ==> r[k] == SliderEntry("node_" + caps[k].id, caps[k].value)
  {
    if caps == [] then []
    else Prefixed(caps[..|caps| - 1]) + [SliderEntry("node_" + caps[|caps| - 1].id, caps[|caps| - 1].value)]
  }

  /** The value of the last entry for `id`, as the adjuster's loop leaves it. */
  function LastSlider(s: seq<SliderEntry>, id: string): Option<real> {
    var k := LastIndex(s, id);
    if k < 0 then None else Some(s[k].value)
  }

  /** The position of the last entry for `id`, or -1 when there is none. */
  function LastIndex(s: seq<SliderEntry>, id: string): (k: int)
    ensures -1 <= k < |s|
    ensures k >= 0 ==> s[k].id == id
    ensures forall j :: k < j < |s| ==> s[j].id != id
  {
    if s == [] then -1
    else if s[|s| - 1].id == id then |s| - 1
    else LastIndex(s[..|s| - 1], id)
  }

  /** The slider entry for graph node `"node_" + id` is the entry for `id`. */
  lemma {:induction false} PrefixedLookup(caps: seq<SliderEntry>, id: string)
    ensures LastSlider(Prefixed(caps), "node_" + id) == LastSlider(caps, id)
  {
    if caps != [] {
      var init := caps[..|caps| - 1];
      PrefixedLookup(init, id);
      var p := Prefixed(caps);
      assert p[..|p| - 1] == Prefixed(init);
      PrefixInjective(caps[|caps| - 1].id, id);
    }
  }

  lemma PrefixInjective(a: string, b: string)
    ensures ("node_" + a == "node_" + b) == (a == b)
  {
    assert ("node_" + a)[5..] == a;
    assert ("node_" + b)[5..] == b;
  }

  /** `installed_capacity_adjuster`: `(max_installed_capacity / 5) * slider`,
      or 0 when the technology has no defaults or the node no slider value
      (the exceptions the adjuster catches). A NaN maximum gives NaN. */
  function AdjustedCapacity(defaults: map<string, TechDefaults>, sliders: seq<SliderEntry>,
                            techLabel: string, id: string): Scalar
  {
    var tech := Lower(techLabel);
    if tech !in defaults then Num(0.0)
    else
      match LastSlider(sliders, id)
      case None => Num(0.0)
      case Some(v) =>
        match defaults[tech].max_installed_capacity
        case NaN => NaN
        case Num(m) => Num((m / 5.0) * v)
  }

  /** Slider 0 gives no capacity, slider 5 the technology's maximum, and the
      mapping is linear in between. */
  lemma SliderScale(defaults: map<string, TechDefaults>, sliders: seq<SliderEntry>,
                    techLabel: string, id: string)
    requires Lower(techLabel) in defaults && defaults[Lower(techLabel)].max_installed_capacity.Num?
    requires LastSlider(sliders, id).Some?
    ensures var m := defaults[Lower(techLabel)].max_installed_capacity.r;
            var v := LastSlider(sliders, id).value;
            && AdjustedCapacity(defaults, sliders, techLabel, id) == Num(m * v / 5.0)
            && (v == 0.0 ==> AdjustedCapacity(defaults, sliders, techLabel, id) == Num(0.0))
            && (v == 5.0 ==> AdjustedCapacity(defaults, sliders, techLabel, id) == Num(m))
  {
  }

  // ================================================================ profiles

  function Sum(xs: seq<real>): real {
    if xs == [] then 0.0 else Sum(xs[..|xs| - 1]) + xs[|xs| - 1]
  }

  /** Python's `data[i]`: a negative index counts from the end. */
  function PyIndex(data: seq<real>, i: int): Option<real> {
    if 0 <= i < |data| then Some(data[i])
    else if -|data| <= i < 0 then Some(data[|data| + i])
    else None
  }

  /** `[profile_data[i - 1] for i in indices]` as written; `None` where it
      raises IndexError. */
  function SelectRowsAsWritten(data: seq<real>, indices: seq<int>): Option<seq<real>> {
    if indices == [] then Some([])
    else
      match SelectRowsAsWritten(data, indices[..|indices| - 1])
      case None => None
      case Some(init) =>
        match PyIndex(data, indices[|indices| - 1] - 1)
        case None => None
        case Some(x) => Some(init + [x])
  }

  /** Index 0 is let through: it selects the last row of the profile instead
      of being refused as a row number outside 1..len. */
  lemma SelectRowsAsWrittenAcceptsZero()
    ensures SelectRowsAsWritten([10.0, 20.0], [0]) == Some([20.0])
    ensures SelectRows([10.0, 20.0], [0]) == None
  {
    var indices: seq<int> := [0];
    assert indices[..|indices| - 1] == [];
    assert SelectRowsAsWritten([10.0, 20.0], []) == Some([]);
    assert PyIndex([10.0, 20.0], -1) == Some(20.0);
    assert [] + [20.0] == [20.0];
  }

  /** The rows at the 1-based `indices`, in the order given; `None` when any
      index lies outside 1..|data|. */
  function SelectRows(data: seq<real>, indices: seq<int>): (r: Option<seq<real>>)
    ensures r.Some? <==> forall k :: 0 <= k < |indices| ==> 1 <= indices[k] <= |data|
    ensures r.Some? ==> |r.value| == |indices| &&
                        forall k :: 0 <= k < |indices| ==> r.value[k] == data[indices[k] - 1]
  {
    if indices == [] then Some([])
    else
      var last := indices[|indices| - 1];
      var init := SelectRows(data, indices[..|indices| - 1]);
      assert forall k :: 0 <= k < |indices| - 1 ==> indices[..|indices| - 1][k] == indices[k];
      if init.None? || !(1 <= last <= |data|) then None
      else Some(init.value + [data[last - 1]])
  }

  /** Where every index is a row number, the written selection agrees with
      the corrected one. */
  lemma {:induction false} SelectRowsAgree(data: seq<real>, indices: seq<int>)
    requires forall k :: 0 <= k < |indices| ==> 1 <= indices[k] <= |data|
    ensures SelectRowsAsWritten(data, indices) == SelectRows(data, indices)
  {
    if indices != [] {
      SelectRowsAgree(data, indices[..|indices| - 1]);
    }
  }

  function Divided(xs: seq<real>, s: real): (r: seq<real>)
    requires s != 0.0
    ensures |r| == |xs| && forall k :: 0 <= k < |xs| ==> r[k] == xs[k] / s
  {
    if xs == [] then [] else Divided(xs[..|xs| - 1], s) + [xs[|xs| - 1] / s]
  }

  /** Demand normalisation: every value divided by the sum, or `None` for a
      zero sum (the ValueError raised instead of dividing). */
  function Normalise(xs: seq<real>): Option<seq<real>> {
    var s := Sum(xs);
    if s == 0.0 then None else Some(Divided(xs, s))
  }

  lemma {:induction false} SumDivided(xs: seq<real>, s: real)
    requires s != 0.0
    ensures Sum(Divided(xs, s)) == Sum(xs) / s
  {
    if xs != [] {
      var init := xs[..|xs| - 1];
      SumDivided(init, s);
      var d := Divided(xs, s);
      assert d[..|d| - 1] == Divided(init, s);
      DivisionAdds(Sum(init), xs[|xs| - 1], s);
    }
  }

  lemma DivisionAdds(a: real, b: real, s: real)
    requires s != 0.0
    ensures a / s + b / s == (a + b) / s
  {
  }

  lemma SelfDivision(s: real)
    requires s != 0.0
    ensures s / s == 1.0
  {
  }

  /** A normalised demand profile sums to exactly 1; a zero sum is refused. */
  lemma NormalisedSumsToOne(xs: seq<real>)
    ensures Normalise(xs).None? <==> Sum(xs) == 0.0
    ensures Normalise(xs).Some? ==> Sum(Normalise(xs).value) == 1.0
  {
    if Sum(xs) != 0.0 {
      SumDivided(xs, Sum(xs));
      SelfDivision(Sum(xs));
    }
  }

  function Rounded6(xs: seq<real>): (r: seq<real>)
    ensures |r| == |xs| && forall k :: 0 <= k < |xs| ==> r[k] == Round6(xs[k])
  {
    if xs == [] then [] else Rounded6(xs[..|xs| - 1]) + [Round6(xs[|xs| - 1])]
  }

  lemma {:induction false} Rounded6SumClose(xs: seq<real>)
    ensures Abs(Sum(Rounded6(xs)) - Sum(xs)) <= 0.0000005 * |xs| as real
  {
    if xs != [] {
      var init := xs[..|xs| - 1];
      Rounded6SumClose(init);
      var r := Rounded6(xs);
      assert r[..|r| - 1] == Rounded6(init);
      var x := xs[|xs| - 1];
      assert Abs(Round6(x) - x) <= 0.0000005;
    }
  }

  /** What `process_profile` returns, and the timestep list it leaves behind. */
  datatype ProfileOutcome = ProfileOutcome(timesteps: seq<int>, values: seq<real>)

  /** `process_profile(name, kind)` on a scenario whose timestep list is `ts`.
      Every error the method catches gives the empty list; the timestep list
      is replaced by the index file's contents as soon as that file has been
      read, even when selection or normalisation fails afterwards. */
  function ProcessProfileSpec(name: ProfileName, kind: string, profileFiles: map<string, seq<real>>,
                              indexFile: Option<seq<int>>, ts: seq<int>): ProfileOutcome
  {
    if name.NanName? || name.file == "" then ProfileOutcome(ts, [])
    else if name.file !in profileFiles then ProfileOutcome(ts, [])
    else if indexFile.None? then ProfileOutcome(ts, [])
    else
      var indices := indexFile.value;
      match SelectRows(profileFiles[name.file], indices)
      case None => ProfileOutcome(indices, [])
      case Some(selected) =>
        if Lower(kind) == "demand" then
          match Normalise(selected)
          case None => ProfileOutcome(indices, [])
          case Some(normalised) => ProfileOutcome(indices, Rounded6(normalised))
        else if Lower(kind) == "availability" then ProfileOutcome(indices, Rounded6(selected))
        else ProfileOutcome(indices, [])
  }

  /** An empty or NaN name, or a kind other than demand/availability, gives
      the empty list; a blank name leaves the timestep list alone. */
  lemma ProfileRejected(name: ProfileName, kind: string, profileFiles: map<string, seq<real>>,
                        indexFile: Option<seq<int>>, ts: seq<int>)
    requires name.NanName? || name.file == "" || (Lower(kind) != "demand" && Lower(kind) != "availability")
    ensures ProcessProfileSpec(name, kind, profileFiles, indexFile, ts).values == []
    ensures name.NanName? || name.file == "" ==>
              ProcessProfileSpec(name, kind, profileFiles, indexFile, ts).timesteps == ts
  {
  }

  /** Once both files are read, the timestep list is the index list, whatever
      happens next: the last reading wins. */
  lemma ProfileOverwritesTimesteps(name: ProfileName, kind: string, profileFiles: map<string, seq<real>>,
                                   indexFile: Option<seq<int>>, ts: seq<int>)
    requires name.Name? && name.file != "" && name.file in profileFiles && indexFile.Some?
    ensures ProcessProfileSpec(name, kind, profileFiles, indexFile, ts).timesteps == indexFile.value
  {
  }

  /** An availability profile has one entry per index, entry k being the
      (6-decimal) row `indices[k]`; an index outside 1..len gives `[]`. */
  lemma AvailabilityProfile(file: string, profileFiles: map<string, seq<real>>, indices: seq<int>, ts: seq<int>)
    requires file != "" && file in profileFiles
    ensures var out := ProcessProfileSpec(Name(file), "availability", profileFiles, Some(indices), ts).values;
            var data := profileFiles[file];
            && ((forall k :: 0 <= k < |indices| ==> 1 <= indices[k] <= |data|) ==>
                  |out| == |indices| && forall k :: 0 <= k < |indices| ==> out[k] == Round6(data[indices[k] - 1]))
            && ((exists k :: 0 <= k < |indices| && !(1 <= indices[k] <= |data|)) ==> out == [])
  {
    assert Lower("availability") == "availability";
  }

  /** A demand profile is the selected rows divided by their sum: it sums to
      1 before rounding and to within half a unit of the sixth decimal per
      entry after it. */
  lemma DemandProfile(file: string, profileFiles: map<string, seq<real>>, indices: seq<int>, ts: seq<int>)
    requires file != "" && file in profileFiles
    requires forall k :: 0 <= k < |indices| ==> 1 <= indices[k] <= |profileFiles[file]|
    requires Sum(SelectRows(profileFiles[file], indices).value) != 0.0
    ensures |ProcessProfileSpec(Name(file), "demand", profileFiles, Some(indices), ts).values| == |indices|
    ensures forall k :: 0 <= k < |indices| ==>
              ProcessProfileSpec(Name(file), "demand", profileFiles, Some(indices), ts).values[k] ==
              Round6(profileFiles[file][indices[k] - 1] / Sum(SelectRows(profileFiles[file], indices).value))
  {
    var data := profileFiles[file];
    var selected := SelectRows(data, indices).value;
    var normalised := Divided(selected, Sum(selected));
    var out := ProcessProfileSpec(Name(file), "demand", profileFiles, Some(indices), ts).values;
    DemandValues(file, profileFiles, indices, ts);
    forall k | 0 <= k < |indices|
      ensures out[k] == Round6(data[indices[k] - 1] / Sum(selected))
    {
      assert selected[k] == data[indices[k] - 1];
      assert normalised[k] == selected[k] / Sum(selected);
    }
  }

  /** The rounded demand profile sums to 1 within half a unit of the sixth
      decimal per entry. */
  lemma DemandProfileSum(file: string, profileFiles: map<string, seq<real>>, indices: seq<int>, ts: seq<int>,
                         out: seq<real>)
    requires file != "" && file in profileFiles
    requires forall k :: 0 <= k < |indices| ==> 1 <= indices[k] <= |profileFiles[file]|
    requires Sum(SelectRows(profileFiles[file], indices).value) != 0.0
    requires out == ProcessProfileSpec(Name(file), "demand", profileFiles, Some(indices), ts).values
    ensures Abs(Sum(out) - 1.0) <= 0.0000005 * |indices| as real
  {
    var selected := SelectRows(profileFiles[file], indices).value;
    var normalised := Divided(selected, Sum(selected));
    assert out == Rounded6(normalised) && Sum(normalised) == 1.0 && |normalised| == |indices| by {
      DemandValues(file, profileFiles, indices, ts);
      NormalisedSumsToOne(selected);
    }
    RoundedUnitSum(normalised, out, |indices|);
  }

  lemma RoundedUnitSum(normalised: seq<real>, out: seq<real>, n: nat)
    requires Sum(normalised) == 1.0 && out == Rounded6(normalised) && |normalised| == n
    ensures Abs(Sum(out) - 1.0) <= 0.0000005 * n as real
  {
    Rounded6SumClose(normalised);
  }

  /** A demand profile whose selected rows sum to zero is refused: the
      result is `[]`, never a division by zero. */
  lemma DemandProfileZeroSum(file: string, profileFiles: map<string, seq<real>>, indices: seq<int>, ts: seq<int>)
    requires file != "" && file in profileFiles
    requires forall k :: 0 <= k < |indices| ==> 1 <= indices[k] <= |profileFiles[file]|
    requires Sum(SelectRows(profileFiles[file], indices).value) == 0.0
    ensures ProcessProfileSpec(Name(file), "demand", profileFiles, Some(indices), ts).values == []
  {
    DemandValues(file, profileFiles, indices, ts);
  }

  lemma DemandValues(file: string, profileFiles: map<string, seq<real>>, indices: seq<int>, ts: seq<int>)
    requires file != "" && file in profileFiles
    requires SelectRows(profileFiles[file], indices).Some?
    ensures var selected := SelectRows(profileFiles[file], indices).value;
            ProcessProfileSpec(Name(file), "demand", profileFiles, Some(indices), ts).values ==
              if Sum(selected) == 0.0 then [] else Rounded6(Divided(selected, Sum(selected)))
  {
    assert Lower("demand") == "demand";
  }

  // ================================================================ graph nodes

  /** What translating some nodes leaves behind: the entities appended, the
      timestep list after their profile reads, and whether a node was
      rejected (which ends the translation). */
  datatype BuildState = BuildState(entities: seq<Entity>, timesteps: seq<int>, aborted: bool)

  /** The checks a node must pass before anything is built for it: all three
      keys, a valid type (any letter case), and defaults for its technology. */
  predicate NodeAccepted(defaults: map<string, TechDefaults>, n: GraphNode) {
    && n.id.Some? && n.kind.Some? && n.techLabel.Some?
    && Lower(n.kind.value) in VALID_TYPES
    && Lower(n.techLabel.value) in defaults
  }

  function KindOf(e: Entity): string {
    match e
    case Producer(_, _, _, _, _, _, _, _) => "producer"
    case Consumer(_, _, _, _) => "consumer"
    case Battery(_, _, _, _) => "battery"
    case Timesteps(_) => "timesteps"
  }

  function Kinds(es: seq<Entity>): (r: seq<string>)
    ensures |r| == |es| && forall k :: 0 <= k < |es| ==> r[k] == KindOf(es[k])
  {
    if es == [] then [] else Kinds(es[..|es| - 1]) + [KindOf(es[|es| - 1])]
  }

  /** The entity a node of the (lower-cased) type `kind` yields: one record
      of that kind, or none for a junction. */
  function NodeEntities(d: TechDefaults, kind: string, id: string, techLabel: string,
                        avail: seq<real>, demand: seq<real>, capacity: Scalar): (r: seq<Entity>)
    ensures kind in VALID_TYPES ==> Kinds(r) == if kind == "junction" then [] else [kind]
    ensures forall k :: 0 <= k < |r| ==> !r[k].Timesteps? && r[k].node_id == id && r[k].technology == techLabel
  {
    if kind == "producer" then
      [Producer(id, techLabel, d.capacity_cost, d.operational_cost, d.operational_lifetime,
                avail, capacity, d.record_curtailment)]
    else if kind == "consumer" then [Consumer(id, techLabel, d.yearly_demand, demand)]
    else if kind == "battery" then [Battery(id, techLabel, d.energy_capacity, capacity)]
    else []
  }

  /** One pass of the loop in `process_graph_data`, on timestep list `ts`:
      the availability profile is read first, then the demand profile, for
      every accepted node whatever its type. */
  function Step(defaults: map<string, TechDefaults>, profileFiles: map<string, seq<real>>,
                indexFile: Option<seq<int>>, sliders: seq<SliderEntry>,
                ts: seq<int>, n: GraphNode): BuildState
  {
    if !NodeAccepted(defaults, n) then BuildState([], ts, true)
    else
      var d := defaults[Lower(n.techLabel.value)];
      var avail := ProcessProfileSpec(d.availability_profile_name, "availability", profileFiles, indexFile, ts);
      var demand := ProcessProfileSpec(d.demand_profile_name, "demand", profileFiles, indexFile, avail.timesteps);
      BuildState(NodeEntities(d, Lower(n.kind.value), n.id.value, n.techLabel.value, avail.values, demand.values,
                              AdjustedCapacity(defaults, sliders, n.techLabel.value, n.id.value)),
                 demand.timesteps, false)
  }

  /** The loop over the nodes: the first rejected node stops it. */
  function Build(defaults: map<string, TechDefaults>, profileFiles: map<string, seq<real>>,
                 indexFile: Option<seq<int>>, sliders: seq<SliderEntry>,
                 ts: seq<int>, nodes: seq<GraphNode>): BuildState
  {
    if nodes == [] then BuildState([], ts, false)
    else
      var prev := Build(defaults, profileFiles, indexFile, sliders, ts, nodes[..|nodes| - 1]);
      if prev.aborted then prev
      else
        var st := Step(defaults, profileFiles, indexFile, sliders, prev.timesteps, nodes[|nodes| - 1]);
        BuildState(prev.entities + st.entities, st.timesteps, st.aborted)
  }

  /** The state of `process_graph_data` once the nodes `done` are visited:
      the entities `nodesNow` and timesteps `tsNow` that `Build` gives for
      them, after `nodes0` and starting from `ts0`. */
  ghost predicate BuiltFrom(defaults: map<string, TechDefaults>, profileFiles: map<string, seq<real>>,
                            indexFile: Option<seq<int>>, sliders: seq<SliderEntry>,
                            ts0: seq<int>, nodes0: seq<Entity>, done: seq<GraphNode>, aborted: bool,
                            nodesNow: seq<Entity>, tsNow: seq<int>)
  {
    var b := Build(defaults, profileFiles, indexFile, sliders, ts0, done);
    nodesNow == nodes0 + b.entities && tsNow == b.timesteps && aborted == b.aborted
  }

  /** The step of node `i`, taken from the state after the nodes before it,
      gives the state after node `i`. */
  lemma BuiltStep(defaults: map<string, TechDefaults>, profileFiles: map<string, seq<real>>,
                  indexFile: Option<seq<int>>, sliders: seq<SliderEntry>,
                  ts0: seq<int>, nodes0: seq<Entity>, gs: seq<GraphNode>, i: nat,
                  nodes1: seq<Entity>, ts1: seq<int>, nodes2: seq<Entity>, ts2: seq<int>, aborted: bool)
    requires i < |gs| && BuiltFrom(defaults, profileFiles, indexFile, sliders, ts0, nodes0, gs[..i], false, nodes1, ts1)
    requires var st := Step(defaults, profileFiles, indexFile, sliders, ts1, gs[i]);
             nodes2 == nodes1 + st.entities && ts2 == st.timesteps && aborted == st.aborted
    ensures BuiltFrom(defaults, profileFiles, indexFile, sliders, ts0, nodes0, gs[..i + 1], aborted, nodes2, ts2)
  {
    var prev := Build(defaults, profileFiles, indexFile, sliders, ts0, gs[..i]);
    var st := Step(defaults, profileFiles, indexFile, sliders, ts1, gs[i]);
    var next := Build(defaults, profileFiles, indexFile, sliders, ts0, gs[..i + 1]);
    assert next == BuildState(prev.entities + st.entities, st.timesteps, st.aborted) by {
      BuildStep(defaults, profileFiles, indexFile, sliders, ts0, gs, i);
    }
    ConcatAssoc(nodes0, prev.entities, st.entities);
  }

  /** Visiting one more node, while none was rejected, appends its step. */
  lemma BuildStep(defaults: map<string, TechDefaults>, profileFiles: map<string, seq<real>>,
                  indexFile: Option<seq<int>>, sliders: seq<SliderEntry>,
                  ts: seq<int>, nodes: seq<GraphNode>, i: nat)
    requires i < |nodes| && !Build(defaults, profileFiles, indexFile, sliders, ts, nodes[..i]).aborted
    ensures var prev := Build(defaults, profileFiles, indexFile, sliders, ts, nodes[..i]);
            var st := Step(defaults, profileFiles, indexFile, sliders, prev.timesteps, nodes[i]);
            Build(defaults, profileFiles, indexFile, sliders, ts, nodes[..i + 1]) ==
              BuildState(prev.entities + st.entities, st.timesteps, st.aborted)
  {
    TakeSnoc(nodes, i);
  }

  /** The entities `process_graph_data` appends: those of the loop, then the
      timestep marker if no node was rejected. */
  function GraphEntities(b: BuildState): seq<Entity> {
    if b.aborted then b.entities else b.entities + [Timesteps(b.timesteps)]
  }

  /** The kinds of the entities the accepted nodes `nodes` yield, in order. */
  function ExpectedKinds(defaults: map<string, TechDefaults>, nodes: seq<GraphNode>): seq<string>
    requires forall k :: 0 <= k < |nodes| ==> NodeAccepted(defaults, nodes[k])
  {
    if nodes == [] then []
    else
      var init := nodes[..|nodes| - 1];
      assert forall k :: 0 <= k < |init| ==> init[k] == nodes[k];
      var n := nodes[|nodes| - 1];
      assert NodeAccepted(defaults, n);
      ExpectedKinds(defaults, init) +
        (if Lower(n.kind.value) == "junction" then [] else [Lower(n.kind.value)])
  }

  /** The length of the longest prefix of accepted nodes. */
  function AcceptedCount(defaults: map<string, TechDefaults>, nodes: seq<GraphNode>): (c: nat)
    ensures c <= |nodes|
    ensures forall k :: 0 <= k < c ==> NodeAccepted(defaults, nodes[k])
    ensures c < |nodes| ==> !NodeAccepted(defaults, nodes[c])
  {
    if nodes == [] then 0
    else if !NodeAccepted(defaults, nodes[0]) then 0
    else
      var c := 1 + AcceptedCount(defaults, nodes[1..]);
      assert forall k :: 1 <= k < c ==> nodes[k] == nodes[1..][k - 1];
      c
  }

  lemma {:induction false} KindsAppend(a: seq<Entity>, b: seq<Entity>)
    ensures Kinds(a + b) == Kinds(a) + Kinds(b)
  {
    assert |Kinds(a + b)| == |Kinds(a) + Kinds(b)|;
    forall k | 0 <= k < |a + b|
      ensures Kinds(a + b)[k] == (Kinds(a) + Kinds(b))[k]
    {
    }
  }

  lemma {:induction false} BuildAccepted(defaults: map<string, TechDefaults>, profileFiles: map<string, seq<real>>,
                                         indexFile: Option<seq<int>>, sliders: seq<SliderEntry>,
                                         ts: seq<int>, nodes: seq<GraphNode>)
    requires forall k :: 0 <= k < |nodes| ==> NodeAccepted(defaults, nodes[k])
    ensures !Build(defaults, profileFiles, indexFile, sliders, ts, nodes).aborted
    ensures Kinds(Build(defaults, profileFiles, indexFile, sliders, ts, nodes).entities) == ExpectedKinds(defaults, nodes)
  {
    if nodes != [] {
      var init := nodes[..|nodes| - 1];
      assert forall k :: 0 <= k < |init| ==> init[k] == nodes[k];
      BuildAccepted(defaults, profileFiles, indexFile, sliders, ts, init);
      var prev := Build(defaults, profileFiles, indexFile, sliders, ts, init);
      var st := Step(defaults, profileFiles, indexFile, sliders, prev.timesteps, nodes[|nodes| - 1]);
      KindsAppend(prev.entities, st.entities);
    }
  }

  lemma {:induction false} BuildStopsAtRejected(defaults: map<string, TechDefaults>, profileFiles: map<string, seq<real>>,
                                                indexFile: Option<seq<int>>, sliders: seq<SliderEntry>,
                                                ts: seq<int>, nodes: seq<GraphNode>, c: nat)
    requires c < |nodes| && !NodeAccepted(defaults, nodes[c])
    requires forall k :: 0 <= k < c ==> NodeAccepted(defaults, nodes[k])
    ensures Build(defaults, profileFiles, indexFile, sliders, ts, nodes).aborted
    ensures Build(defaults, profileFiles, indexFile, sliders, ts, nodes).entities ==
            Build(defaults, profileFiles, indexFile, sliders, ts, nodes[..c]).entities
    decreases |nodes|
  {
    var init := nodes[..|nodes| - 1];
    if c == |nodes| - 1 {
      assert init == nodes[..c];
      BuildAccepted(defaults, profileFiles, indexFile, sliders, ts, init);
    } else {
      assert init[..c] == nodes[..c];
      BuildStopsAtRejected(defaults, profileFiles, indexFile, sliders, ts, init, c);
    }
  }

  /** `process_graph_data`: junctions yield no entity, every other accepted
      node yields an entity of its own kind, in node order; the first node
      with a missing key, an invalid type or no defaults stops the
      translation, and only when no node was rejected is the timestep marker
      appended last. */
  lemma GraphTranslation(defaults: map<string, TechDefaults>, profileFiles: map<string, seq<real>>,
                         indexFile: Option<seq<int>>, sliders: seq<SliderEntry>,
                         ts: seq<int>, nodes: seq<GraphNode>)
    ensures var b := Build(defaults, profileFiles, indexFile, sliders, ts, nodes);
            var c := AcceptedCount(defaults, nodes);
            && Kinds(b.entities) == ExpectedKinds(defaults, nodes[..c])
            && (b.aborted <==> c < |nodes|)
            && (c < |nodes| ==> GraphEntities(b) == b.entities)
            && (c == |nodes| ==> GraphEntities(b) == b.entities + [Timesteps(b.timesteps)])
  {
    var c := AcceptedCount(defaults, nodes);
    assert forall k :: 0 <= k < c ==> nodes[..c][k] == nodes[k];
    if c < |nodes| {
      BuildStopsAtRejected(defaults, profileFiles, indexFile, sliders, ts, nodes, c);
      BuildAccepted(defaults, profileFiles, indexFile, sliders, ts, nodes[..c]);
    } else {
      TakeAll(nodes, c);
      BuildAccepted(defaults, profileFiles, indexFile, sliders, ts, nodes);
    }
  }

  /** Once the loop has aborted, later nodes change nothing. */
  lemma {:induction false} BuildKeepsAbort(defaults: map<string, TechDefaults>, profileFiles: map<string, seq<real>>,
                                           indexFile: Option<seq<int>>, sliders: seq<SliderEntry>,
                                           ts: seq<int>, nodes: seq<GraphNode>, i: nat)
    requires i <= |nodes|
    requires Build(defaults, profileFiles, indexFile, sliders, ts, nodes[..i]).aborted
    ensures Build(defaults, profileFiles, indexFile, sliders, ts, nodes[..i]) ==
            Build(defaults, profileFiles, indexFile, sliders, ts, nodes)
    decreases |nodes| - i
  {
    if i < |nodes| {
      TakeSnoc(nodes, i);
      BuildKeepsAbort(defaults, profileFiles, indexFile, sliders, ts, nodes, i + 1);
    } else {
      TakeAll(nodes, i);
    }
  }

  // ================================================================ the scenario object

  class Scenario {
    var nodes: seq<Entity>
    var timesteps: seq<int>
    var resetFlag: bool
    var autoSimulateFlag: bool
    /** The attribute `autoSimulate_flag`, which `get_slider_data` creates
        under a name different from the declared `auto_simulate_flag`;
        absent until then. */
    var autoSimulateAttr: Option<bool>
    var prodCapacities: seq<SliderEntry>
    var modifiedSliderValues: seq<SliderEntry>
    const defaults: map<string, TechDefaults>
    const profileFiles: map<string, seq<real>>
    const indexFile: Option<seq<int>>

    constructor (defaults: map<string, TechDefaults>, profileFiles: map<string, seq<real>>,
                 indexFile: Option<seq<int>>)
      ensures nodes == [] && timesteps == [] && prodCapacities == [] && modifiedSliderValues == []
      ensures !resetFlag && !autoSimulateFlag && autoSimulateAttr.None?
      ensures this.defaults == defaults && this.profileFiles == profileFiles && this.indexFile == indexFile
    {
      nodes, timesteps := [], [];
      resetFlag, autoSimulateFlag, autoSimulateAttr := false, false, None;
      prodCapacities, modifiedSliderValues := [], [];
      this.defaults, this.profileFiles, this.indexFile := defaults, profileFiles, indexFile;
    }

    /** `get_slider_data`: the auto-simulate value goes to the new attribute
        `autoSimulate_flag`, so the declared flag keeps its value. */
    method GetSliderData(reset: bool, autoSimulate: bool, caps: seq<SliderEntry>)
      modifies this
      ensures resetFlag == reset && autoSimulateAttr == Some(autoSimulate)
      ensures autoSimulateFlag == old(autoSimulateFlag)
      ensures prodCapacities == caps && modifiedSliderValues == Prefixed(caps)
      ensures nodes == old(nodes) && timesteps == old(timesteps)
    {
      resetFlag, autoSimulateAttr := reset, Some(autoSimulate);
      prodCapacities := caps;
      modifiedSliderValues := Prefixed(caps);
    }

    /** `installed_capacity_adjuster(techLabel, id)`. */
    method InstalledCapacityAdjuster(techLabel: string, id: string) returns (c: Scalar)
      ensures c == AdjustedCapacity(defaults, modifiedSliderValues, techLabel, id)
    {
      var sliderValue: Option<real> := None;
      var i := 0;
      while i < |modifiedSliderValues|
        invariant 0 <= i <= |modifiedSliderValues|
        invariant sliderValue == LastSlider(modifiedSliderValues[..i], id)
      {
        var entry := modifiedSliderValues[i];
        TakeSnoc(modifiedSliderValues, i);
        if entry.id == id {
          sliderValue := Some(entry.value);
        }
        i := i + 1;
      }
      TakeAll(modifiedSliderValues, i);
      var tech := Lower(techLabel);
      if tech !in defaults {
        return Num(0.0);
      }
      if sliderValue.None? {
        return Num(0.0);
      }
      match defaults[tech].max_installed_capacity
      case NaN => c := NaN;
      case Num(m) => c := Num((m / 5.0) * sliderValue.value);
    }

    /** `process_profile(name, kind)`: the imperative rendering of
        `ProcessProfileSpec`, each early `return []` standing for an error
        the source's `try` catches, and `self.timesteps` assigned as soon as
        the index file is read. */
    method ProcessProfile(name: ProfileName, kind: string) returns (r: seq<real>)
      modifies this`timesteps
      ensures var out := ProcessProfileSpec(name, kind, profileFiles, indexFile, old(timesteps));
              r == out.values && timesteps == out.timesteps
    {
      if name.NanName? || name.file == "" {
        return [];
      }
      if name.file !in profileFiles || indexFile.None? {
        return [];
      }
      var profileData := profileFiles[name.file];
      var indices := indexFile.value;
      timesteps := indices;
      var selected := SelectRows(profileData, indices);
      if selected.None? {
        return [];
      }
      var data := selected.value;
      if Lower(kind) == "demand" {
        var normalised := Normalise(data);
        if normalised.None? {
          return [];
        }
        data := normalised.value;
      } else if Lower(kind) != "availability" {
        return [];
      }
      r := Rounded6(data);
    }

    /** One pass of the loop in `process_graph_data`; `rejected` when the
        node raises and so ends the translation. */
    method ProcessNode(n: GraphNode) returns (rejected: bool)
      modifies this`nodes, this`timesteps
      ensures var st := Step(defaults, profileFiles, indexFile, modifiedSliderValues, old(timesteps), n);
              nodes == old(nodes) + st.entities && timesteps == st.timesteps && rejected == st.aborted
    {
      if n.id.None? || n.kind.None? || n.techLabel.None? {
        return true;
      }
      var nodeType := Lower(n.kind.value);
      if nodeType !in VALID_TYPES {
        return true;
      }
      var tech := Lower(n.techLabel.value);
      if tech !in defaults {
        return true;
      }
      var d := defaults[tech];
      var avail := ProcessProfile(d.availability_profile_name, "availability");
      var demand := ProcessProfile(d.demand_profile_name, "demand");
      var id, techLabel := n.id.value, n.techLabel.value;
      if nodeType == "producer" {
        var ic := InstalledCapacityAdjuster(techLabel, id);
        nodes := nodes + [Producer(id, techLabel, d.capacity_cost, d.operational_cost, d.operational_lifetime,
                                   avail, ic, d.record_curtailment)];
      } else if nodeType == "consumer" {
        nodes := nodes + [Consumer(id, techLabel, d.yearly_demand, demand)];
      } else if nodeType == "battery" {
        var ic := InstalledCapacityAdjuster(techLabel, id);
        nodes := nodes + [Battery(id, techLabel, d.energy_capacity, ic)];
      }
      rejected := false;
    }

    /** The state of `process_graph_data` once the nodes `done` are visited. */
    ghost predicate Built(ts0: seq<int>, nodes0: seq<Entity>, done: seq<GraphNode>, aborted: bool)
      reads this`nodes, this`timesteps, this`modifiedSliderValues
    {
      BuiltFrom(defaults, profileFiles, indexFile, modifiedSliderValues, ts0, nodes0, done, aborted, nodes, timesteps)
    }

    /** One pass of the loop of `process_graph_data`, over node `i`. */
    method VisitNode(ghost ts0: seq<int>, ghost nodes0: seq<Entity>, graphNodes: seq<GraphNode>, i: nat)
      returns (aborted: bool)
      requires i < |graphNodes| && Built(ts0, nodes0, graphNodes[..i], false)
      modifies this`nodes, this`timesteps
      ensures Built(ts0, nodes0, graphNodes[..i + 1], aborted)
    {
      ghost var nodes1, ts1 := nodes, timesteps;
      aborted := ProcessNode(graphNodes[i]);
      BuiltStep(defaults, profileFiles, indexFile, modifiedSliderValues, ts0, nodes0, graphNodes, i,
                nodes1, ts1, nodes, timesteps, aborted);
    }

    /** `process_graph_data`. */
    method ProcessGraphData(graph: GraphData)
      modifies this`nodes, this`timesteps
      ensures var b := Build(defaults, profileFiles, indexFile, modifiedSliderValues, old(timesteps), GraphNodes(graph));
              nodes == old(nodes) + GraphEntities(b) && timesteps == b.timesteps
    {
      var graphNodes := GraphNodes(graph);
      ghost var ts0 := timesteps;
      ghost var nodes0 := nodes;
      var i := 0;
      var aborted := false;
      while i < |graphNodes| && !aborted
        invariant 0 <= i <= |graphNodes|
        invariant Built(ts0, nodes0, graphNodes[..i], aborted)
        decreases |graphNodes| - i
      {
        aborted := VisitNode(ts0, nodes0, graphNodes, i);
        i := i + 1;
      }
      if aborted {
        BuildKeepsAbort(defaults, profileFiles, indexFile, modifiedSliderValues, ts0, graphNodes, i);
      } else {
        TakeAll(graphNodes, i);
        nodes := nodes + [Timesteps(timesteps)];
      }
    }
  }

  // ================================================================ results shaping

  /** The heatmap number of a solved scenario. */
  datatype Heat = Finite(x: real) | Infinite

  /** `get_heatmap_plot_data`: the levelised cost TOTEX/EnergySupTot rounded
      to 4 decimals when the unmet demand is below 0.1, +inf otherwise. With
      no energy supplied and no unmet demand the division raises. */
  function HeatmapValue(totex: real, energySupTot: real, unmetDemand: real): Result<Heat> {
    if unmetDemand < 0.1 then
      if energySupTot == 0.0 then Failure("division by zero")
      else Success(Finite(Round4(totex / energySupTot)))
    else Success(Infinite)
  }

  /** The cost is finite exactly when the unmet demand is below the 0.1
      tolerance (and energy was supplied), and infinite exactly when it is not. */
  lemma HeatmapThreshold(totex: real, energySupTot: real, unmetDemand: real)
    ensures HeatmapValue(totex, energySupTot, unmetDemand) == Success(Infinite) <==> unmetDemand >= 0.1
    ensures HeatmapValue(totex, energySupTot, unmetDemand).Success? &&
            HeatmapValue(totex, energySupTot, unmetDemand).value.Finite? <==>
            unmetDemand < 0.1 && energySupTot != 0.0
    ensures unmetDemand < 0.1 && energySupTot != 0.0 ==>
            Abs(HeatmapValue(totex, energySupTot, unmetDemand).value.x - totex / energySupTot) <= 0.00005
  {
  }

  lemma HeatmapExamples()
    ensures HeatmapValue(100.0, 50.0, 0.05) == Success(Finite(2.0))
    ensures HeatmapValue(100.0, 50.0, 0.2) == Success(Infinite)
  {
    assert (Abs(2.0) * 10000.0 + 0.5).Floor == 20000;
  }

  /** A solved variable value with its (technology, node, timestep) index. */
  datatype VarRow = VarRow(h: string, n: string, t: int, value: real)

  /** A row of the stacked bar chart: the value, its stack order and its
      Supply/Demand type. */
  datatype PlotRow = PlotRow(h: string, n: string, t: int, value: real, order: int, kind: string)

  function Tagged(rows: seq<VarRow>, order: int, kind: string): (r: seq<PlotRow>)
    ensures |r| == |rows|
    ensures forall k :: 0 <= k < |rows| ==>
              r[k] == PlotRow(rows[k].h, rows[k].n, rows[k].t, rows[k].value, order, kind)
  {
    seq(|rows|, k requires 0 <= k < |rows| => PlotRow(rows[k].h, rows[k].n, rows[k].t, rows[k].value, order, kind))
  }

  /** `get_generation_conusmption_plot_data`: generation (1, Supply),
      consumption (-1, Demand), curtailed generation (100, Supply) and unmet
      demand (-100, Demand), concatenated in that order. */
  function GenerationConsumptionRows(pg: seq<VarRow>, pd: seq<VarRow>, nSPg: seq<VarRow>, nSPd: seq<VarRow>): seq<PlotRow> {
    Tagged(pg, 1, "Supply") + Tagged(pd, -1, "Demand") + Tagged(nSPg, 100, "Supply") + Tagged(nSPd, -100, "Demand")
  }

  /** The rows of a block that sits between `pre` and `post` keep their
      place relative to the block. */
  lemma InBlock<T>(pre: seq<T>, x: seq<T>, post: seq<T>)
    ensures forall k :: 0 <= k < |x| ==> (pre + x + post)[|pre| + k] == x[k]
  {
  }

  /** One row per input row; the chart places each variable's rows in its
      own block, with the order and type of that variable. */
  lemma PlotRowsTagged(pg: seq<VarRow>, pd: seq<VarRow>, nSPg: seq<VarRow>, nSPd: seq<VarRow>)
    ensures |GenerationConsumptionRows(pg, pd, nSPg, nSPd)| == |pg| + |pd| + |nSPg| + |nSPd|
    ensures forall k :: 0 <= k < |pg| ==>
              GenerationConsumptionRows(pg, pd, nSPg, nSPd)[k] == PlotRow(pg[k].h, pg[k].n, pg[k].t, pg[k].value, 1, "Supply")
    ensures forall k :: 0 <= k < |pd| ==>
              GenerationConsumptionRows(pg, pd, nSPg, nSPd)[|pg| + k] == PlotRow(pd[k].h, pd[k].n, pd[k].t, pd[k].value, -1, "Demand")
    ensures forall k :: 0 <= k < |nSPg| ==>
              GenerationConsumptionRows(pg, pd, nSPg, nSPd)[|pg| + |pd| + k] ==
              PlotRow(nSPg[k].h, nSPg[k].n, nSPg[k].t, nSPg[k].value, 100, "Supply")
    ensures forall k :: 0 <= k < |nSPd| ==>
              GenerationConsumptionRows(pg, pd, nSPg, nSPd)[|pg| + |pd| + |nSPg| + k] ==
              PlotRow(nSPd[k].h, nSPd[k].n, nSPd[k].t, nSPd[k].value, -100, "Demand")
  {
    var a, b, c, d := Tagged(pg, 1, "Supply"), Tagged(pd, -1, "Demand"), Tagged(nSPg, 100, "Supply"), Tagged(nSPd, -100, "Demand");
    assert GenerationConsumptionRows(pg, pd, nSPg, nSPd) == a + b + c + d;
    InBlock([], a, b + c + d);
    assert [] + a + (b + c + d) == a + b + c + d;
    InBlock(a, b, c + d);
    assert a + b + (c + d) == a + b + c + d;
    InBlock(a + b, c, d);
    InBlock(a + b + c, d, []);
    assert a + b + c + d + [] == a + b + c + d;
  }

  /** A chart row is a Supply row exactly when its stack order is positive. */
  lemma PlotRowsKinds(pg: seq<VarRow>, pd: seq<VarRow>, nSPg: seq<VarRow>, nSPd: seq<VarRow>)
    ensures var r := GenerationConsumptionRows(pg, pd, nSPg, nSPd);
      forall k :: 0 <= k < |r| ==> (r[k].kind == "Supply" <==> r[k].order > 0)
  {
    var r := GenerationConsumptionRows(pg, pd, nSPg, nSPd);
    PlotRowsTagged(pg, pd, nSPg, nSPd);
    forall k | 0 <= k < |r| ensures r[k].kind == "Supply" <==> r[k].order > 0 {
      if k < |pg| {
      } else if k < |pg| + |pd| {
        assert r[|pg| + (k - |pg|)].order == -1;
      } else if k < |pg| + |pd| + |nSPg| {
        assert r[|pg| + |pd| + (k - |pg| - |pd|)].order == 100;
      } else {
        assert r[|pg| + |pd| + |nSPg| + (k - |pg| - |pd| - |nSPg|)].order == -100;
      }
    }
  }
}
