/** Answering a simulation request (backend/home/response_processing_new.py):
    solving one slider configuration and grouping its results for the charts
    (`fill_cell`), sweeping the two selected sliders over the 6 x 6 grid of
    values 0..5 and keeping the cheapest configuration (`fillMatrixOfCells`),
    dispatching on the request's flags (`process_response`), and picking
    items out of the combined result JSON (`extract_items`).

    Solving a scenario is a function parameter `solve` from the slider
    configuration to the solved output; the rest of the request is fixed. */
module ResponseProcessing {
  import opened Wrappers
  import opened Text
  import opened ScenarioTranslation

  // ================================================================ extract_items

  /** A JSON value as `json.loads` returns it. An object keeps its fields
      in the order they were read; a repeated key keeps the place of its
      first occurrence and the value of its last, as a Python dict built
      from them does. */
  datatype Json =
    | JNull
    | JBool(b: bool)
    | JNum(x: real)
    | JStr(s: string)
    | JList(items: seq<Json>)
    | JObject(fields: seq<(string, Json)>)

  const NoGet := "'object' has no attribute 'get'"
  const NotIterable := "object is not iterable"

  /** `d.get(k)` on the dict the fields build: the last value read for the
      key, and null when there is none. */
  function Get(fields: seq<(string, Json)>, k: string): Json {
    if fields == [] then JNull
    else if fields[|fields| - 1].0 == k then fields[|fields| - 1].1
    else Get(fields[..|fields| - 1], k)
  }

  /** The keys of the dict the fields build, in its iteration order: each
      key once, at its first occurrence. */
  function Keys(fields: seq<(string, Json)>): (ks: seq<string>)
    ensures forall k :: k in ks <==> exists i :: 0 <= i < |fields| && fields[i].0 == k
    ensures forall i, j :: 0 <= i < j < |ks| ==> ks[i] != ks[j]
  {
    if fields == [] then []
    else
      var ks := Keys(fields[..|fields| - 1]);
      assert forall i :: 0 <= i < |fields| - 1 ==> fields[..|fields| - 1][i] == fields[i];
      if fields[|fields| - 1].0 in ks then ks else ks + [fields[|fields| - 1].0]
  }

  function KeySet(fields: seq<(string, Json)>): set<string> {
    set i | 0 <= i < |fields| :: fields[i].0
  }

  /** Field `i` holds the value the dict keeps for its key. */
  predicate IsLast(fields: seq<(string, Json)>, i: int)
    requires 0 <= i < |fields|
  {
    forall j :: i < j < |fields| ==> fields[j].0 != fields[i].0
  }

  predicate IsNumeric(v: Json) {
    v.JBool? || v.JNum?
  }

  /** The number a bool or a number stands for in a Python comparison. */
  function NumOf(v: Json): real
    requires IsNumeric(v)
  {
    match v
    case JBool(b) => if b then 1.0 else 0.0
    case JNum(x) => x
  }

  /** Python's `==` on decoded JSON: bools and numbers compare as numbers,
      lists element by element, dicts by their keys and the values kept for
      them, whatever their order; anything else by identity of value. */
  predicate PyEq(a: Json, b: Json)
    decreases a
  {
    if IsNumeric(a) && IsNumeric(b) then NumOf(a) == NumOf(b)
    else if a.JList? && b.JList? then
      |a.items| == |b.items| && forall i :: 0 <= i < |a.items| ==> PyEq(a.items[i], b.items[i])
    else if a.JObject? && b.JObject? then
      && KeySet(a.fields) == KeySet(b.fields)
      && forall i :: 0 <= i < |a.fields| && IsLast(a.fields, i) ==> PyEq(a.fields[i].1, Get(b.fields, a.fields[i].0))
    else a == b
  }

  /** What `for item in items` visits: a list's elements, a string's
      characters, a dict's keys; anything else is not iterable. */
  function Iterate(v: Json): (r: Result<seq<Json>>)
    ensures v.JList? ==> r == Success(v.items)
    ensures v.JStr? ==> r.Success? && |r.value| == |v.s| && forall i :: 0 <= i < |v.s| ==> r.value[i] == JStr([v.s[i]])
    ensures v.JObject? ==>
              r.Success? && |r.value| == |Keys(v.fields)| &&
              forall i :: 0 <= i < |r.value| ==> r.value[i] == JStr(Keys(v.fields)[i])
    ensures r.Failure? <==> v.JNull? || v.JBool? || v.JNum?
  {
    match v
    case JList(items) => Success(items)
    case JStr(s) => Success(seq(|s|, i requires 0 <= i < |s| => JStr([s[i]])))
    case JObject(fields) =>
      var ks := Keys(fields);
      Success(seq(|ks|, i requires 0 <= i < |ks| => JStr(ks[i])))
    case _ => Failure(NotIterable)
  }

  /** An item passes the filters when every filter's key holds a value equal
      (by Python's `==`) to the filter's value; with no filters every item
      passes, whatever it is. */
  predicate Satisfies(item: Json, filters: seq<(string, Json)>) {
    filters == [] ||
    (item.JObject? && forall i :: 0 <= i < |filters| ==> PyEq(Get(item.fields, filters[i].0), filters[i].1))
  }

  /** The filtering loop of `extract_items`: the first item that is not an
      object, when there are filters to test, raises. */
  function FilterItems(items: seq<Json>, filters: seq<(string, Json)>): (r: Result<seq<Json>>)
    ensures r.Success? <==> filters == [] || forall k :: 0 <= k < |items| ==> items[k].JObject?
    ensures r.Success? ==> forall x :: x in r.value <==> x in items && Satisfies(x, filters)
  {
    if items == [] then Success([])
    else
      var prev := FilterItems(items[..|items| - 1], filters);
      var item := items[|items| - 1];
      if prev.Failure? then prev
      else if filters != [] && !item.JObject? then Failure(NoGet)
      else if Satisfies(item, filters) then Success(prev.value + [item])
      else prev
  }

  /** `extract_items(json_data, key, **filters)`: a missing key gives the
      empty list, "heatmap" gives its value as it is, and any other key gives
      the items it iterates over that pass the filters. */
  function ExtractItems(data: map<string, Json>, key: string, filters: seq<(string, Json)>): Result<Json> {
    if key !in data then Success(JList([]))
    else if key == "heatmap" then Success(data[key])
    else
      match Iterate(data[key])
      case Failure(e) => Failure(e)
      case Success(items) =>
        match FilterItems(items, filters)
        case Success(r) => Success(JList(r))
        case Failure(e) => Failure(e)
  }

  /** Python's `==` is reflexive on decoded JSON. */
  lemma {:induction false} PyEqReflexive(a: Json)
    ensures PyEq(a, a)
    decreases a
  {
    match a
    case JList(items) =>
      forall i | 0 <= i < |items|
        ensures PyEq(items[i], items[i])
      {
        PyEqReflexive(items[i]);
      }
    case JObject(fields) =>
      forall i | 0 <= i < |fields| && IsLast(fields, i)
        ensures PyEq(fields[i].1, Get(fields, fields[i].0))
      {
        GetLast(fields, i);
        PyEqReflexive(fields[i].1);
      }
    case _ =>
  }

  /** The dict keeps the value of the last field read for a key. */
  lemma {:induction false} GetLast(fields: seq<(string, Json)>, i: nat)
    requires i < |fields| && IsLast(fields, i)
    ensures Get(fields, fields[i].0) == fields[i].1
    decreases |fields|
  {
    if i < |fields| - 1 {
      var init := fields[..|fields| - 1];
      assert init[i] == fields[i];
      GetLast(init, i);
    }
  }

  /** `True == 1` and `1 == 1.0` in Python, so a filter on 1 lets a record
      holding `true` through; a string under the key is iterated by
      character. */
  lemma PythonEquality()
    ensures PyEq(JBool(true), JNum(1.0)) && !PyEq(JBool(false), JNum(1.0))
    ensures Satisfies(JObject([("T", JBool(true))]), [("T", JNum(1.0))])
    ensures PyEq(JObject([("a", JNum(1.0)), ("b", JBool(false))]), JObject([("b", JNum(0.0)), ("a", JBool(true))]))
    ensures ExtractItems(map["linechart" := JStr("ab")], "linechart", []) == Success(JList([JStr("a"), JStr("b")]))
  {
    var o, p := JObject([("a", JNum(1.0)), ("b", JBool(false))]), JObject([("b", JNum(0.0)), ("a", JBool(true))]);
    assert o.fields[0].0 == "a" && o.fields[1].0 == "b" && p.fields[0].0 == "b" && p.fields[1].0 == "a";
    assert "a" in KeySet(o.fields) && "b" in KeySet(o.fields) && "a" in KeySet(p.fields) && "b" in KeySet(p.fields);
    assert KeySet(o.fields) == {"a", "b"} == KeySet(p.fields);
    assert Get(p.fields, "a") == JBool(true) && Get(p.fields, "b") == JNum(0.0);
    assert forall i :: 0 <= i < 2 && IsLast(o.fields, i) ==> PyEq(o.fields[i].1, Get(p.fields, o.fields[i].0));
    var r := Iterate(JStr("ab"));
    assert r.value == [JStr("a"), JStr("b")];
    FilterNone([JStr("a"), JStr("b")]);
  }

  /** Filtering keeps the order of the items: the result for a concatenation
      is the concatenation of the results. */
  lemma {:induction false} FilterAppend(a: seq<Json>, b: seq<Json>, filters: seq<(string, Json)>)
    requires FilterItems(a + b, filters).Success?
    ensures FilterItems(a, filters).Success? && FilterItems(b, filters).Success?
    ensures FilterItems(a + b, filters).value == FilterItems(a, filters).value + FilterItems(b, filters).value
    decreases |b|
  {
    if b == [] {
      assert a + b == a;
    } else {
      var b' := b[..|b| - 1];
      assert (a + b)[..|a + b| - 1] == a + b';
      assert (a + b)[|a + b| - 1] == b[|b| - 1];
      FilterAppend(a, b', filters);
    }
  }

  /** Without filters every item is kept, in order. */
  lemma {:induction false} FilterNone(items: seq<Json>)
    ensures FilterItems(items, []) == Success(items)
  {
    if items != [] {
      FilterNone(items[..|items| - 1]);
      assert items[..|items| - 1] + [items[|items| - 1]] == items;
    }
  }

  /** What `extract_items` returns, case by case: a missing key, the raw
      heatmap, a value that cannot be iterated, and otherwise the visited
      items (a list's elements, a string's characters, a dict's keys) that
      pass the filters, in order. */
  lemma ExtractCases(data: map<string, Json>, key: string, filters: seq<(string, Json)>)
    ensures key !in data ==> ExtractItems(data, key, filters) == Success(JList([]))
    ensures key in data && key == "heatmap" ==> ExtractItems(data, key, filters) == Success(data[key])
    ensures key in data && key != "heatmap" && (data[key].JNull? || data[key].JBool? || data[key].JNum?) ==>
              ExtractItems(data, key, filters) == Failure(NotIterable)
    ensures key in data && key != "heatmap" && Iterate(data[key]).Success? && filters == [] ==>
              ExtractItems(data, key, filters) == Success(JList(Iterate(data[key]).value))
    ensures key in data && key != "heatmap" && Iterate(data[key]).Success? ==>
              (ExtractItems(data, key, filters).Failure? <==>
                 filters != [] && exists k :: 0 <= k < |Iterate(data[key]).value| && !Iterate(data[key]).value[k].JObject?)
    ensures key in data && key != "heatmap" && ExtractItems(data, key, filters).Success? ==>
              exists r :: ExtractItems(data, key, filters) == Success(JList(r)) &&
                forall x :: x in r <==> x in Iterate(data[key]).value && Satisfies(x, filters)
  {
    if key in data && key != "heatmap" && Iterate(data[key]).Success? {
      var items := Iterate(data[key]).value;
      FilterNone(items);
      var f := FilterItems(items, filters);
      if f.Success? {
        assert ExtractItems(data, key, filters) == Success(JList(f.value));
      }
    }
  }

  // ================================================================ fill_cell

  /** The `matrixData` of a cell: the heatmap number, or the text "inf" that
      stands for an infinite cost in the result JSON. */
  datatype MatrixValue = Number(x: real) | InfText

  function HeatmapJson(h: Heat): (v: MatrixValue)
    ensures v.InfText? <==> h.Infinite?
  {
    match h
    case Finite(x) => Number(x)
    case Infinite => InfText
  }

  /** A cell shows "inf" exactly when the unmet demand reaches the 0.1
      tolerance, and otherwise the cost per unit of energy, to 4 decimals. */
  lemma MatrixValueThreshold(totex: real, energySupTot: real, unmetDemand: real)
    requires HeatmapValue(totex, energySupTot, unmetDemand).Success?
    ensures HeatmapJson(HeatmapValue(totex, energySupTot, unmetDemand).value) == InfText <==> unmetDemand >= 0.1
    ensures HeatmapJson(HeatmapValue(totex, energySupTot, unmetDemand).value).Number? ==>
              Abs(HeatmapJson(HeatmapValue(totex, energySupTot, unmetDemand).value).x - totex / energySupTot) <= 0.00005
  {
    HeatmapThreshold(totex, energySupTot, unmetDemand);
  }

  /** What a solved configuration yields: the three scalars the heatmap is
      computed from, the storage level rows and the generation/consumption
      rows. */
  datatype SolveOutput = SolveOutput(totex: real, energySupTot: real, unmetDemand: real,
                                     lines: seq<VarRow>, bars: seq<PlotRow>)
  {
    /** `get_heatmap_plot_data` on this solution. */
    function Heatmap(): Result<Heat> {
      HeatmapValue(totex, energySupTot, unmetDemand)
    }
  }

  /** The chart data of a cell, keyed by node id without its "node_" prefix;
      the bars are further keyed by their stack order. */
  datatype ChartData = ChartData(line: map<string, seq<VarRow>>, bar: map<string, map<int, seq<PlotRow>>>)

  datatype CellResult = CellResult(matrixData: MatrixValue, lineChartData: map<string, seq<VarRow>>,
                                   barChartData: map<string, map<int, seq<PlotRow>>>, timestep: int)

  const EmptyMax := "max() arg is an empty sequence"
  const NoneSlice := "'NoneType' object is not subscriptable"

  /** `s[5:]`: the text after the five-character "node_" prefix; empty when
      the text is shorter. */
  function Suffix(s: string): (r: string)
    ensures |s| >= 5 ==> s == s[..5] + r
    ensures |s| < 5 ==> r == ""
  {
    if |s| >= 5 then s[5..] else ""
  }

  /** `math.copysign(x, sign)`. */
  function CopySign(x: real, sign: int): (r: real)
    ensures Abs(r) == Abs(x)
    ensures sign < 0 ==> r <= 0.0
    ensures sign >= 0 ==> r >= 0.0
  {
    if sign < 0 then -Abs(x) else Abs(x)
  }

  /** A bar row with its value signed like its stack order, so that demand
      rows point down. */
  function Signed(b: PlotRow): PlotRow {
    b.(value := CopySign(b.value, b.order))
  }

  /** `max(T of every bar row)`. */
  function MaxT(bars: seq<PlotRow>): (m: int)
    requires |bars| > 0
    ensures forall k :: 0 <= k < |bars| ==> bars[k].t <= m
    ensures exists k :: 0 <= k < |bars| && bars[k].t == m
  {
    if |bars| == 1 then bars[0].t
    else
      var m' := MaxT(bars[..|bars| - 1]);
      if bars[|bars| - 1].t > m' then bars[|bars| - 1].t else m'
  }

  /** The storage level rows of one node, in order. */
  function LinesOf(lines: seq<VarRow>, id: string): (r: seq<VarRow>)
    ensures forall x :: x in r <==> x in lines && Suffix(x.n) == id
  {
    if lines == [] then []
    else
      var prev := LinesOf(lines[..|lines| - 1], id);
      var l := lines[|lines| - 1];
      if Suffix(l.n) == id then prev + [l] else prev
  }

  /** Appending one signed bar row under its node and stack order, creating
      the groups it needs. */
  function AddBar(bar: map<string, map<int, seq<PlotRow>>>, id: string, b: PlotRow): map<string, map<int, seq<PlotRow>>> {
    var inner := if id in bar then bar[id] else map[];
    var group := if b.order in inner then inner[b.order] else [];
    bar[id := inner[b.order := group + [Signed(b)]]]
  }

  /** The inner loop of `fill_cell` for one node: every bar row of that node,
      in order. */
  function NodeBars(bar: map<string, map<int, seq<PlotRow>>>, id: string, bars: seq<PlotRow>): map<string, map<int, seq<PlotRow>>> {
    if bars == [] then bar
    else
      var prev := NodeBars(bar, id, bars[..|bars| - 1]);
      var b := bars[|bars| - 1];
      if Suffix(b.n) == id then AddBar(prev, id, b) else prev
  }

  /** The outer loop of `fill_cell`: junctions are skipped, every other node
      collects its bar rows, and batteries also their storage level rows. A
      non-junction node without an id raises. */
  function Charts(nodes: seq<GraphNode>, out: SolveOutput): Result<ChartData> {
    if nodes == [] then Success(ChartData(map[], map[]))
    else
      var prev := Charts(nodes[..|nodes| - 1], out);
      var node := nodes[|nodes| - 1];
      if prev.Failure? then prev
      else if node.kind == Some("junction") then prev
      else if node.id.None? then Failure(NoneSlice)
      else
        var id := Suffix(node.id.value);
        var line := if node.kind == Some("battery") then prev.value.line[id := LinesOf(out.lines, id)] else prev.value.line;
        Success(ChartData(line, NodeBars(prev.value.bar, id, out.bars)))
  }

  /** `fill_cell` on a solved configuration. The heatmap is computed first
      (its division by zero raises), then the timestep, so a solution without
      bar rows raises, then the node loop. */
  function CellOf(out: SolveOutput, nodes: seq<GraphNode>): Result<CellResult> {
    match out.Heatmap()
    case Failure(e) => Failure(e)
    case Success(heat) =>
      if |out.bars| == 0 then Failure(EmptyMax)
      else
        match Charts(nodes, out)
        case Failure(e) => Failure(e)
        case Success(c) => Success(CellResult(HeatmapJson(heat), c.line, c.bar, MaxT(out.bars)))
  }

  // ---------------------------------------------------------------- what the charts hold

  /** The group stored under a node and a stack order; empty when absent. */
  function Lookup(bar: map<string, map<int, seq<PlotRow>>>, id: string, o: int): seq<PlotRow> {
    if id in bar && o in bar[id] then bar[id][o] else []
  }

  /** Reference definition of one group: the signed bar rows of that node and
      stack order, in order. */
  function BarsFor(bars: seq<PlotRow>, id: string, o: int): (r: seq<PlotRow>)
    ensures forall x :: x in r <==>
              exists k :: 0 <= k < |bars| && Suffix(bars[k].n) == id && bars[k].order == o && x == Signed(bars[k])
  {
    if bars == [] then []
    else
      var prev := BarsFor(bars[..|bars| - 1], id, o);
      var b := bars[|bars| - 1];
      assert forall k :: 0 <= k < |bars| - 1 ==> bars[..|bars| - 1][k] == bars[k];
      if Suffix(b.n) == id && b.order == o then prev + [Signed(b)] else prev
  }

  predicate Contributes(n: GraphNode, id: string) {
    n.kind != Some("junction") && n.id.Some? && Suffix(n.id.value) == id
  }

  predicate BatteryAt(n: GraphNode, id: string) {
    n.kind == Some("battery") && n.id.Some? && Suffix(n.id.value) == id
  }

  predicate Unnamed(n: GraphNode) {
    n.kind != Some("junction") && n.id.None?
  }

  /** Reference definition of what a cell stores under a node id and a stack
      order: that group once for every non-junction node with that id. */
  function Group(nodes: seq<GraphNode>, bars: seq<PlotRow>, id: string, o: int): seq<PlotRow> {
    if nodes == [] then []
    else
      Group(nodes[..|nodes| - 1], bars, id, o) +
      (if Contributes(nodes[|nodes| - 1], id) then BarsFor(bars, id, o) else [])
  }

  /** Every stored node has a group, and every stored group a row. */
  predicate GroupsNonEmpty(bar: map<string, map<int, seq<PlotRow>>>) {
    (forall id :: id in bar ==> |bar[id]| > 0) &&
    (forall id, o :: id in bar && o in bar[id] ==> bar[id][o] != [])
  }

  lemma AddBarLookup(bar: map<string, map<int, seq<PlotRow>>>, id: string, b: PlotRow, id2: string, o: int)
    ensures Lookup(AddBar(bar, id, b), id2, o) == Lookup(bar, id2, o) + (if id2 == id && b.order == o then [Signed(b)] else [])
  {
  }

  lemma {:induction false} NodeBarsLookup(bar: map<string, map<int, seq<PlotRow>>>, id: string, bars: seq<PlotRow>, id2: string, o: int)
    ensures Lookup(NodeBars(bar, id, bars), id2, o) == Lookup(bar, id2, o) + (if id2 == id then BarsFor(bars, id, o) else [])
  {
    if bars != [] {
      var init := bars[..|bars| - 1];
      var b := bars[|bars| - 1];
      NodeBarsLookup(bar, id, init, id2, o);
      if Suffix(b.n) == id {
        AddBarLookup(NodeBars(bar, id, init), id, b, id2, o);
      }
    }
  }

  lemma AddBarNonEmpty(bar: map<string, map<int, seq<PlotRow>>>, id: string, b: PlotRow)
    requires GroupsNonEmpty(bar)
    ensures GroupsNonEmpty(AddBar(bar, id, b))
  {
    var r := AddBar(bar, id, b);
    forall id2, o | id2 in r && o in r[id2]
      ensures r[id2][o] != []
    {
      if id2 != id {
        assert r[id2] == bar[id2];
      }
    }
  }

  lemma {:induction false} NodeBarsNonEmpty(bar: map<string, map<int, seq<PlotRow>>>, id: string, bars: seq<PlotRow>)
    requires GroupsNonEmpty(bar)
    ensures GroupsNonEmpty(NodeBars(bar, id, bars))
  {
    if bars != [] {
      var init := bars[..|bars| - 1];
      NodeBarsNonEmpty(bar, id, init);
      if Suffix(bars[|bars| - 1].n) == id {
        AddBarNonEmpty(NodeBars(bar, id, init), id, bars[|bars| - 1]);
      }
    }
  }

  /** A cell fails exactly when some non-junction node has no id. */
  lemma {:induction false} ChartsFailure(nodes: seq<GraphNode>, out: SolveOutput)
    ensures Charts(nodes, out).Failure? <==> exists k :: 0 <= k < |nodes| && Unnamed(nodes[k])
  {
    if nodes != [] {
      var init := nodes[..|nodes| - 1];
      ChartsFailure(init, out);
      assert forall k :: 0 <= k < |init| ==> init[k] == nodes[k];
      if exists k :: 0 <= k < |nodes| && Unnamed(nodes[k]) {
        var k :| 0 <= k < |nodes| && Unnamed(nodes[k]);
        if k < |init| {
          assert Unnamed(init[k]);
        }
      }
    }
  }

  /** Once a prefix of the nodes has raised, the whole loop has raised with
      the same error. */
  lemma {:induction false} ChartsFailureKept(nodes: seq<GraphNode>, n: nat, out: SolveOutput)
    requires n <= |nodes|
    requires Charts(nodes[..n], out).Failure?
    ensures Charts(nodes, out) == Charts(nodes[..n], out)
    decreases |nodes| - n
  {
    if n < |nodes| {
      var init := nodes[..|nodes| - 1];
      assert init[..n] == nodes[..n];
      ChartsFailureKept(init, n, out);
    } else {
      TakeAll(nodes, n);
    }
  }

  /** The bar chart data holds, under every node id and stack order, exactly
      the reference group, and only non-empty groups are stored. */
  lemma {:induction false} ChartsBars(nodes: seq<GraphNode>, out: SolveOutput)
    requires Charts(nodes, out).Success?
    ensures forall id, o :: Lookup(Charts(nodes, out).value.bar, id, o) == Group(nodes, out.bars, id, o)
    ensures GroupsNonEmpty(Charts(nodes, out).value.bar)
  {
    if nodes != [] {
      var init := nodes[..|nodes| - 1];
      var node := nodes[|nodes| - 1];
      ChartsBars(init, out);
      var prev := Charts(init, out).value;
      if node.kind != Some("junction") {
        var id := Suffix(node.id.value);
        NodeBarsNonEmpty(prev.bar, id, out.bars);
        forall id2, o
          ensures Lookup(Charts(nodes, out).value.bar, id2, o) == Group(nodes, out.bars, id2, o)
        {
          NodeBarsLookup(prev.bar, id, out.bars, id2, o);
        }
      }
    }
  }

  /** The line chart data has an entry exactly for the battery nodes, and
      each entry holds that node's storage level rows. */
  lemma {:induction false} ChartsLines(nodes: seq<GraphNode>, out: SolveOutput)
    requires Charts(nodes, out).Success?
    ensures forall id :: id in Charts(nodes, out).value.line <==> exists k :: 0 <= k < |nodes| && BatteryAt(nodes[k], id)
    ensures forall id :: id in Charts(nodes, out).value.line ==> Charts(nodes, out).value.line[id] == LinesOf(out.lines, id)
  {
    if nodes != [] {
      var init := nodes[..|nodes| - 1];
      var node := nodes[|nodes| - 1];
      ChartsLines(init, out);
      var prev := Charts(init, out).value.line;
      var line := Charts(nodes, out).value.line;
      assert line == if node.kind == Some("battery") then prev[Suffix(node.id.value) := LinesOf(out.lines, Suffix(node.id.value))]
                     else prev;
      forall id
        ensures id in line <==> exists k :: 0 <= k < |nodes| && BatteryAt(nodes[k], id)
      {
        BatterySnoc(nodes, init, id);
      }
    }
  }

  /** A battery among the nodes is one among all but the last, or the last. */
  lemma BatterySnoc(nodes: seq<GraphNode>, init: seq<GraphNode>, id: string)
    requires nodes != [] && init == nodes[..|nodes| - 1]
    ensures (exists k :: 0 <= k < |nodes| && BatteryAt(nodes[k], id)) <==>
            (exists k :: 0 <= k < |init| && BatteryAt(init[k], id)) || BatteryAt(nodes[|nodes| - 1], id)
  {
    if k :| 0 <= k < |nodes| && BatteryAt(nodes[k], id) {
      if k < |init| {
        assert BatteryAt(init[k], id);
      }
    }
    if k :| 0 <= k < |init| && BatteryAt(init[k], id) {
      assert BatteryAt(nodes[k], id);
    }
  }

  /** Bar rows are grouped under the node they belong to and their own stack
      order, and demand rows (negative order) never point up. */
  lemma GroupRows(nodes: seq<GraphNode>, bars: seq<PlotRow>, id: string, o: int)
    ensures forall x :: x in BarsFor(bars, id, o) ==> Suffix(x.n) == id && x.order == o
    ensures o < 0 ==> forall x :: x in BarsFor(bars, id, o) ==> x.value <= 0.0
    ensures o >= 0 ==> forall x :: x in BarsFor(bars, id, o) ==> x.value >= 0.0
  {
  }

  /** Summary of a cell: it fails exactly when the heatmap divides by zero
      (no energy supplied while the unmet demand is below 0.1), there are no
      bar rows, or some non-junction node has no id; otherwise it carries the
      heatmap value, the largest timestep, the grouped bars and the battery
      lines. */
  lemma CellFacts(out: SolveOutput, nodes: seq<GraphNode>)
    ensures out.unmetDemand < 0.1 && out.energySupTot == 0.0 ==> CellOf(out, nodes) == Failure("division by zero")
    ensures CellOf(out, nodes).Failure? <==>
              (out.unmetDemand < 0.1 && out.energySupTot == 0.0) || |out.bars| == 0 ||
              exists k :: 0 <= k < |nodes| && Unnamed(nodes[k])
    ensures CellOf(out, nodes).Success? ==>
              var c := CellOf(out, nodes).value;
              && out.Heatmap().Success?
              && c.matrixData == HeatmapJson(out.Heatmap().value)
              && (forall k :: 0 <= k < |out.bars| ==> out.bars[k].t <= c.timestep)
              && (exists k :: 0 <= k < |out.bars| && out.bars[k].t == c.timestep)
              && (forall id, o :: id in c.barChartData && o in c.barChartData[id] <==> Group(nodes, out.bars, id, o) != [])
              && (forall id, o :: id in c.barChartData && o in c.barChartData[id] ==> c.barChartData[id][o] == Group(nodes, out.bars, id, o))
              && (forall id :: id in c.lineChartData <==> exists k :: 0 <= k < |nodes| && BatteryAt(nodes[k], id))
  {
    ChartsFailure(nodes, out);
    if CellOf(out, nodes).Success? {
      ChartsBars(nodes, out);
      ChartsLines(nodes, out);
      var c := CellOf(out, nodes).value;
      forall id, o
        ensures id in c.barChartData && o in c.barChartData[id] <==> Group(nodes, out.bars, id, o) != []
      {
        assert Lookup(c.barChartData, id, o) == Group(nodes, out.bars, id, o);
      }
    }
  }

  /** Collects one node's bar rows into the chart data. */
  method CollectBars(bar0: map<string, map<int, seq<PlotRow>>>, id: string, bars: seq<PlotRow>)
    returns (bar: map<string, map<int, seq<PlotRow>>>)
    ensures bar == NodeBars(bar0, id, bars)
  {
    bar := bar0;
    var j := 0;
    while j < |bars|
      invariant 0 <= j <= |bars|
      invariant bar == NodeBars(bar0, id, bars[..j])
    {
      var b := bars[j];
      TakeSnoc(bars, j);
      if Suffix(b.n) == id {
        var inner := if id in bar then bar[id] else map[];
        var o := b.order;
        var group := if o in inner then inner[o] else [];
        bar := bar[id := inner[o := group + [Signed(b)]]];
      }
      j := j + 1;
    }
    TakeAll(bars, j);
  }

  /** `fill_cell` after the solve: the largest timestep, then the node loop. */
  method FillCell(out: SolveOutput, nodes: seq<GraphNode>) returns (r: Result<CellResult>)
    ensures r == CellOf(out, nodes)
  {
    var heat := out.Heatmap();
    if heat.Failure? {
      return Failure(heat.error);
    }
    var bars := out.bars;
    if |bars| == 0 {
      return Failure(EmptyMax);
    }
    var timestep := bars[0].t;
    var i := 1;
    while i < |bars|
      invariant 1 <= i <= |bars|
      invariant timestep == MaxT(bars[..i])
    {
      TakeSnoc(bars, i);
      if bars[i].t > timestep {
        timestep := bars[i].t;
      }
      i := i + 1;
    }
    TakeAll(bars, i);
    var line: map<string, seq<VarRow>> := map[];
    var bar: map<string, map<int, seq<PlotRow>>> := map[];
    var k := 0;
    while k < |nodes|
      invariant 0 <= k <= |nodes|
      invariant Charts(nodes[..k], out) == Success(ChartData(line, bar))
    {
      var node := nodes[k];
      TakeSnoc(nodes, k);
      if node.kind != Some("junction") {
        if node.id.None? {
          ChartsFailureKept(nodes, k + 1, out);
          return Failure(NoneSlice);
        }
        var id := Suffix(node.id.value);
        bar := CollectBars(bar, id, bars);
        if node.kind == Some("battery") {
          line := line[id := LinesOf(out.lines, id)];
        }
      }
      k := k + 1;
    }
    TakeAll(nodes, k);
    r := Success(CellResult(HeatmapJson(heat.value), line, bar, timestep));
  }

  // ================================================================ fillMatrixOfCells

  /** `prodCapacities[i][1] = v`. */
  function SetValue(s: seq<SliderEntry>, i: nat, v: real): (r: seq<SliderEntry>)
    requires i < |s|
    ensures |r| == |s| && r[i] == SliderEntry(s[i].id, v)
    ensures forall j :: 0 <= j < |s| && j != i ==> r[j] == s[j]
  {
    s[i := s[i].(value := v)]
  }

  /** Every entry's id with the value 0: the `bestIdx` reported when no cell
      has a finite cost. */
  function Zeroed(s: seq<SliderEntry>): (r: seq<SliderEntry>)
    ensures |r| == |s|
    ensures forall j :: 0 <= j < |s| ==> r[j] == SliderEntry(s[j].id, 0.0)
  {
    seq(|s|, j requires 0 <= j < |s| => SliderEntry(s[j].id, 0.0))
  }

  /** The index of the first entry with that id. */
  function FirstIndex(s: seq<SliderEntry>, id: string): (k: Option<nat>)
    ensures k.Some? ==> k.value < |s| && s[k.value].id == id && forall j :: 0 <= j < k.value ==> s[j].id != id
    ensures k.None? ==> forall j :: 0 <= j < |s| ==> s[j].id != id
  {
    if s == [] then None
    else if s[0].id == id then Some(0)
    else
      match FirstIndex(s[1..], id)
      case None => None
      case Some(k) => Some(k + 1)
  }

  /** The positions of the two selected sliders (column, then row) in the
      capacities; `None` where the sweep raises. */
  function Selected(caps: seq<SliderEntry>, sliderIds: seq<string>): (r: Option<(nat, nat)>)
    ensures r.Some? <==> |sliderIds| >= 2 && FirstIndex(caps, sliderIds[0]).Some? && FirstIndex(caps, sliderIds[1]).Some?
    ensures r.Some? ==> r.value.0 < |caps| && r.value.1 < |caps|
  {
    if |sliderIds| < 2 then None
    else
      match (FirstIndex(caps, sliderIds[0]), FirstIndex(caps, sliderIds[1]))
      case (Some(c), Some(r)) => Some((c, r))
      case _ => None
  }

  /** Within `vals`, the first cell whose value is a number strictly below
      every number seen before it: what the strict `>` comparison against
      the running best keeps. */
  function BestIndex(vals: seq<MatrixValue>): (b: Option<nat>)
    ensures b.Some? ==> b.value < |vals| && vals[b.value].Number?
  {
    if vals == [] then None
    else
      var prev := BestIndex(vals[..|vals| - 1]);
      var v := vals[|vals| - 1];
      if v.Number? && (prev.None? || vals[prev.value].x > v.x) then Some(|vals| - 1) else prev
  }

  /** The running best is the first minimum: no number is smaller, every
      earlier number is larger, and there is none only when no value is a
      number. */
  lemma {:induction false} BestIsFirstMinimum(vals: seq<MatrixValue>)
    ensures BestIndex(vals).None? <==> forall j :: 0 <= j < |vals| ==> vals[j].InfText?
    ensures BestIndex(vals).Some? ==>
              (forall j :: 0 <= j < |vals| && vals[j].Number? ==> vals[BestIndex(vals).value].x <= vals[j].x) &&
              (forall j :: 0 <= j < BestIndex(vals).value && vals[j].Number? ==> vals[j].x > vals[BestIndex(vals).value].x)
  {
    if vals != [] {
      var init := vals[..|vals| - 1];
      BestIsFirstMinimum(init);
      assert forall j :: 0 <= j < |init| ==> init[j] == vals[j];
    }
  }

  lemma BestIndexSnoc(vals: seq<MatrixValue>, v: MatrixValue)
    ensures BestIndex(vals + [v]) ==
              if v.Number? && (BestIndex(vals).None? || vals[BestIndex(vals).value].x > v.x) then Some(|vals|)
              else BestIndex(vals)
  {
    assert (vals + [v])[..|vals|] == vals;
    if BestIndex(vals).Some? {
      assert (vals + [v])[BestIndex(vals).value] == vals[BestIndex(vals).value];
    }
  }

  lemma CellIndex(c: nat, r: nat)
    requires r < 6
    ensures (6 * c + r) / 6 == c && (6 * c + r) % 6 == r
  {
  }

  /** `fill_cell` on the capacities: solve them, then shape the charts. */
  function CellFn(solve: seq<SliderEntry> -> SolveOutput, nodes: seq<GraphNode>): seq<SliderEntry> -> Result<CellResult> {
    caps => CellOf(solve(caps), nodes)
  }

  /** A configuration whose solution supplies no energy while the unmet
      demand stays below 0.1 makes its cell raise the heatmap's division by
      zero, so no result matrix holds for the sweep and `fillMatrixOfCells`
      raises. */
  lemma ZeroSupplyCellFails(solve: seq<SliderEntry> -> SolveOutput, nodes: seq<GraphNode>, sw: Sweep, c: nat, r: nat)
    requires sw.Ok() && sw.cellOf == CellFn(solve, nodes) && c < 6 && r < 6
    requires solve(sw.Config(c, r)).unmetDemand < 0.1 && solve(sw.Config(c, r)).energySupTot == 0.0
    ensures sw.Cell(c, r) == Failure("division by zero")
    ensures !sw.AllSucceed()
    ensures forall m :: !sw.Holds(m)
  {
    CellFacts(solve(sw.Config(c, r)), nodes);
    forall m | sw.Holds(m)
      ensures false
    {
      HoldsCell(sw, m, c, r);
    }
  }

  lemma HoldsCell(sw: Sweep, m: seq<seq<CellResult>>, c: nat, r: nat)
    requires sw.Ok() && sw.Holds(m) && c < 6 && r < 6
    ensures sw.Cell(c, r).Success?
  {
    assert sw.ColumnHolds(c, m[c]);
  }

  /** One sweep: the capacities as they were, the positions of the column
      and row sliders, and what `fill_cell` makes of a configuration. */
  datatype Sweep = Sweep(base: seq<SliderEntry>, ic: nat, ir: nat, cellOf: seq<SliderEntry> -> Result<CellResult>)
  {
    predicate Ok() {
      ic < |base| && ir < |base|
    }

    /** The capacities while cell (c, r) is solved: the column slider set to
        c, then the row slider to r (the row wins when both are the same
        entry); every other entry as it was. */
    function Config(c: int, r: int): (s: seq<SliderEntry>)
      requires Ok()
      ensures |s| == |base|
    {
      SetValue(SetValue(base, ic, c as real), ir, r as real)
    }

    function Cell(c: int, r: int): Result<CellResult>
      requires Ok()
    {
      cellOf(Config(c, r))
    }

    /** The `matrixData` of the k-th cell visited, column by column. */
    function ValueAt(k: nat): MatrixValue
      requires Ok() && k < 36
    {
      match Cell(k / 6, k % 6)
      case Success(v) => v.matrixData
      case Failure(_) => InfText
    }

    function Values(): (vs: seq<MatrixValue>)
      requires Ok()
      ensures |vs| == 36 && forall k :: 0 <= k < 36 ==> vs[k] == ValueAt(k)
    {
      seq(36, k requires 0 <= k < 36 => ValueAt(k))
    }

    predicate AllSucceed()
      requires Ok()
    {
      forall c, r :: 0 <= c < 6 && 0 <= r < 6 ==> Cell(c, r).Success?
    }

    /** The first cells solved in column `c`, in row order. */
    predicate ColumnPrefix(c: int, line: seq<CellResult>)
      requires Ok()
    {
      forall r :: 0 <= r < |line| ==> Cell(c, r) == Success(line[r])
    }

    /** `resultMatrix[col]` holds the cells solved in column `col`. */
    predicate ColumnHolds(c: int, line: seq<CellResult>)
      requires Ok()
    {
      |line| == 6 && ColumnPrefix(c, line)
    }

    /** `resultMatrix[col][row]` is the cell solved at (col, row). */
    predicate Holds(m: seq<seq<CellResult>>)
      requires Ok()
    {
      |m| == 6 && forall c :: 0 <= c < 6 ==> ColumnHolds(c, m[c])
    }

    /** The running best after the first `n` cells: the least finite value
        so far and the configuration of the first cell that reached it. */
    function Track(n: nat): Option<(real, seq<SliderEntry>)>
      requires Ok() && n <= 36
    {
      if n == 0 then None
      else
        var prev := Track(n - 1);
        var v := ValueAt(n - 1);
        if v.Number? && (prev.None? || prev.value.0 > v.x) then Some((v.x, Config((n - 1) / 6, (n - 1) % 6)))
        else prev
    }

    /** The `bestIdx` a completed sweep reports. */
    function Best(): seq<SliderEntry>
      requires Ok()
    {
      match Track(36)
      case Some(p) => p.1
      case None => Zeroed(base)
    }
  }

  /** The running best is the one `BestIndex` picks. */
  lemma {:induction false} TrackIsBestIndex(sw: Sweep, n: nat)
    requires sw.Ok() && n <= 36
    ensures sw.Track(n) == match BestIndex(sw.Values()[..n])
                           case None => None
                           case Some(k) => Some((sw.Values()[k].x, sw.Config(k / 6, k % 6)))
  {
    var vs := sw.Values();
    if n > 0 {
      TrackIsBestIndex(sw, n - 1);
      assert vs[..n] == vs[..n - 1] + [vs[n - 1]];
      BestIndexSnoc(vs[..n - 1], vs[n - 1]);
    }
  }

  /** A completed sweep reports the configuration of the cell `BestIndex`
      picks among all 36, or every id at 0 when it picks none. */
  lemma BestOfSweep(sw: Sweep)
    requires sw.Ok()
    ensures sw.Best() == match BestIndex(sw.Values())
                         case None => Zeroed(sw.base)
                         case Some(k) => sw.Config(k / 6, k % 6)
  {
    TrackIsBestIndex(sw, 36);
    TakeAll(sw.Values(), 36);
  }

  lemma ValueOfCell(sw: Sweep, c: nat, r: nat)
    requires sw.Ok() && c < 6 && r < 6
    ensures sw.Cell(c, r).Success? ==> sw.Values()[6 * c + r] == sw.Cell(c, r).value.matrixData
  {
    CellIndex(c, r);
  }

  /** When no cell of a completed sweep has a finite cost, `bestIdx` is every
      id with the value 0. */
  lemma SweepNoFinite(sw: Sweep)
    requires sw.Ok() && sw.AllSucceed()
    requires forall c, r :: 0 <= c < 6 && 0 <= r < 6 ==> sw.Cell(c, r).value.matrixData.InfText?
    ensures sw.Best() == Zeroed(sw.base)
  {
    var vs := sw.Values();
    BestIsFirstMinimum(vs);
    BestOfSweep(sw);
    forall k | 0 <= k < 36
      ensures vs[k].InfText?
    {
      var c, r := k / 6, k % 6;
      ValueOfCell(sw, c, r);
    }
  }

  /** After a completed sweep with some finite cell, `bestIdx` is the
      configuration of a cell of least finite cost, the first such cell in
      visiting order: every finite cell visited earlier costs more. */
  lemma SweepBestCell(sw: Sweep, c0: nat, r0: nat)
    requires sw.Ok() && sw.AllSucceed()
    requires c0 < 6 && r0 < 6 && sw.Cell(c0, r0).value.matrixData.Number?
    ensures exists c, r :: 0 <= c < 6 && 0 <= r < 6 && sw.Best() == sw.Config(c, r)
              && sw.Cell(c, r).value.matrixData.Number?
              && (forall c', r' :: 0 <= c' < 6 && 0 <= r' < 6 && sw.Cell(c', r').value.matrixData.Number? ==>
                    sw.Cell(c, r).value.matrixData.x <= sw.Cell(c', r').value.matrixData.x)
              && (forall c', r' :: 0 <= c' < 6 && 0 <= r' < 6 && 6 * c' + r' < 6 * c + r && sw.Cell(c', r').value.matrixData.Number? ==>
                    sw.Cell(c, r).value.matrixData.x < sw.Cell(c', r').value.matrixData.x)
  {
    var vs := sw.Values();
    BestIsFirstMinimum(vs);
    BestOfSweep(sw);
    ValueOfCell(sw, c0, r0);
    var k := BestIndex(vs).value;
    var c, r := k / 6, k % 6;
    CellIndex(c, r);
    BestCellBeats(sw, c, r);
  }

  /** The cell `BestIndex` picks costs no more than any finite cell and
      strictly less than every finite cell visited before it. */
  lemma BestCellBeats(sw: Sweep, c: nat, r: nat)
    requires sw.Ok() && sw.AllSucceed() && c < 6 && r < 6 && BestIndex(sw.Values()) == Some(6 * c + r)
    ensures sw.Cell(c, r).value.matrixData.Number?
    ensures forall c', r' :: 0 <= c' < 6 && 0 <= r' < 6 && sw.Cell(c', r').value.matrixData.Number? ==>
              sw.Cell(c, r).value.matrixData.x <= sw.Cell(c', r').value.matrixData.x
    ensures forall c', r' :: 0 <= c' < 6 && 0 <= r' < 6 && 6 * c' + r' < 6 * c + r && sw.Cell(c', r').value.matrixData.Number? ==>
              sw.Cell(c, r).value.matrixData.x < sw.Cell(c', r').value.matrixData.x
  {
    var vs := sw.Values();
    BestIsFirstMinimum(vs);
    ValueOfCell(sw, c, r);
    forall c', r' | 0 <= c' < 6 && 0 <= r' < 6 && sw.Cell(c', r').value.matrixData.Number?
      ensures vs[6 * c' + r'] == sw.Cell(c', r').value.matrixData
    {
      ValueOfCell(sw, c', r');
    }
  }

  /** What the sweep keeps after visiting its first `n` cells: the running
      best value and, once there is one, the configuration of its cell as
      `bestIdx`. */
  ghost predicate Tracked(sw: Sweep, n: nat, best: Option<real>, bestIdx: seq<SliderEntry>, initial: seq<SliderEntry>)
    requires sw.Ok()
  {
    && n <= 36
    && match sw.Track(n)
       case None => best.None? && bestIdx == initial
       case Some(p) => best == Some(p.0) && bestIdx == p.1
  }

  /** Visiting cell (col, row) keeps the tracking: a strictly smaller number
      replaces the running best and its configuration. */
  lemma TrackStep(sw: Sweep, best: Option<real>, bestIdx: seq<SliderEntry>,
                  initial: seq<SliderEntry>, col: nat, row: nat, cell: CellResult)
    requires sw.Ok() && col < 6 && row < 6
    requires Tracked(sw, 6 * col + row, best, bestIdx, initial) && sw.Cell(col, row) == Success(cell)
    ensures var v := cell.matrixData;
            var better := v.Number? && (best.None? || best.value > v.x);
            Tracked(sw, 6 * col + row + 1, if better then Some(v.x) else best,
                    if better then sw.Config(col, row) else bestIdx, initial)
  {
    CellIndex(col, row);
    assert sw.ValueAt(6 * col + row) == cell.matrixData;
  }

  /** The capacities just before cell (col, row) sets its row slider:
      the column slider already moved on from `prev`, or the previous cell's
      configuration. */
  ghost function Before(sw: Sweep, prev: seq<SliderEntry>, col: nat, row: nat): seq<SliderEntry>
    requires sw.Ok() && |prev| == |sw.base|
  {
    if row == 0 then SetValue(prev, sw.ic, col as real) else sw.Config(col, row - 1)
  }

  /** The sweep a request asks for; `None` where the selected sliders are
      missing. */
  function SweepOf(base: seq<SliderEntry>, sliderIds: seq<string>, nodes: seq<GraphNode>,
                   solve: seq<SliderEntry> -> SolveOutput): (s: Option<Sweep>)
    ensures s.Some? <==> Selected(base, sliderIds).Some?
    ensures s.Some? ==> s.value.Ok()
  {
    match Selected(base, sliderIds)
    case Some((c, r)) => Some(Sweep(base, c, r, CellFn(solve, nodes)))
    case None => None
  }

  /** The two sweep steps that set a slider compose into the configuration of
      the next cell. */
  /** Cell (c, r) is solved with the row slider at r and, unless it is the
      same entry, the column slider at c; every id and every other entry as
      they were. */
  lemma ConfigEntries(sw: Sweep, c: int, r: int)
    requires sw.Ok()
    ensures var s := sw.Config(c, r);
            && (forall j :: 0 <= j < |sw.base| ==> s[j].id == sw.base[j].id)
            && s[sw.ir].value == r as real
            && (sw.ic != sw.ir ==> s[sw.ic].value == c as real)
            && (forall j :: 0 <= j < |sw.base| && j != sw.ic && j != sw.ir ==> s[j] == sw.base[j])
  {
  }

  lemma FirstRow(sw: Sweep, prev: seq<SliderEntry>, col: nat)
    requires sw.Ok()
    requires (col == 0 && prev == sw.base) || (col > 0 && prev == sw.Config(col - 1, 5))
    ensures SetValue(SetValue(prev, sw.ic, col as real), sw.ir, 0.0) == sw.Config(col, 0)
  {
    var lhs := SetValue(SetValue(prev, sw.ic, col as real), sw.ir, 0.0);
    assert forall j :: 0 <= j < |lhs| ==> lhs[j] == sw.Config(col, 0)[j];
  }

  lemma NextRow(sw: Sweep, col: nat, row: nat)
    requires sw.Ok() && row > 0
    ensures SetValue(sw.Config(col, row - 1), sw.ir, row as real) == sw.Config(col, row)
  {
    var lhs := SetValue(sw.Config(col, row - 1), sw.ir, row as real);
    assert forall j :: 0 <= j < |lhs| ==> lhs[j] == sw.Config(col, row)[j];
  }

  /** One more solved cell of a column extends its prefix. */
  lemma PrefixSnoc(sw: Sweep, col: nat, line: seq<CellResult>, v: CellResult)
    requires sw.Ok() && sw.ColumnPrefix(col, line) && sw.Cell(col, |line|) == Success(v)
    ensures sw.ColumnPrefix(col, line + [v])
  {
    assert forall r :: 0 <= r < |line| ==> (line + [v])[r] == line[r];
  }

  /** One more solved column extends the solved part of the grid. */
  lemma HoldsSnoc(sw: Sweep, matrix: seq<seq<CellResult>>, line: seq<CellResult>)
    requires sw.Ok() && (forall c :: 0 <= c < |matrix| ==> sw.ColumnHolds(c, matrix[c]))
    requires sw.ColumnHolds(|matrix|, line)
    ensures forall c :: 0 <= c < |matrix| + 1 ==> sw.ColumnHolds(c, (matrix + [line])[c])
  {
    assert forall c :: 0 <= c < |matrix| ==> (matrix + [line])[c] == matrix[c];
  }

  /** Where a column of the sweep stands before cell (col, row), with the
      capacities at `cs` and the running best at (`best`, `bestIdx`): the
      column slider moved on from `prev`, the first `row` cells of the
      column solved into `line`, and the best kept after them. */
  ghost predicate ColumnAt(sw: Sweep, prev: seq<SliderEntry>, col: nat, row: nat, line: seq<CellResult>,
                           best: Option<real>, bestIdx: seq<SliderEntry>, initial: seq<SliderEntry>,
                           cs: seq<SliderEntry>)
    requires sw.Ok() && |prev| == |sw.base|
  {
    && col < 6 && row <= 6
    && ((col == 0 && prev == sw.base) || (col > 0 && prev == sw.Config(col - 1, 5)))
    && cs == Before(sw, prev, col, row)
    && |line| == row && sw.ColumnPrefix(col, line)
    && Tracked(sw, 6 * col + row, best, bestIdx, initial)
  }

  /** Where the sweep stands before column `col`: the capacities `cs` left
      by the previous column, the first `col` columns solved into
      `matrix`, and the running best kept after them. */
  ghost predicate GridAt(sw: Sweep, col: nat, matrix: seq<seq<CellResult>>, best: Option<real>,
                         bestIdx: seq<SliderEntry>, initial: seq<SliderEntry>, cs: seq<SliderEntry>)
    requires sw.Ok()
  {
    && col <= 6
    && (col == 0 ==> cs == sw.base)
    && (col > 0 ==> cs == sw.Config(col - 1, 5))
    && |matrix| == col && (forall c :: 0 <= c < col ==> sw.ColumnHolds(c, matrix[c]))
    && Tracked(sw, 6 * col, best, bestIdx, initial)
  }

  /** Setting the column slider starts the column. */
  lemma StartColumn(sw: Sweep, col: nat, matrix: seq<seq<CellResult>>, best: Option<real>,
                    bestIdx: seq<SliderEntry>, initial: seq<SliderEntry>, cs: seq<SliderEntry>)
    requires sw.Ok() && col < 6 && GridAt(sw, col, matrix, best, bestIdx, initial, cs)
    ensures |cs| == |sw.base|
    ensures ColumnAt(sw, cs, col, 0, [], best, bestIdx, initial, SetValue(cs, sw.ic, col as real))
  {
  }

  /** A column whose six cells are solved extends the grid. */
  lemma EndColumn(sw: Sweep, prev: seq<SliderEntry>, col: nat, line: seq<CellResult>,
                  matrix: seq<seq<CellResult>>, best: Option<real>, bestIdx: seq<SliderEntry>,
                  initial: seq<SliderEntry>, cs: seq<SliderEntry>)
    requires sw.Ok() && |prev| == |sw.base|
    requires |matrix| == col && (forall c :: 0 <= c < col ==> sw.ColumnHolds(c, matrix[c]))
    requires ColumnAt(sw, prev, col, 6, line, best, bestIdx, initial, cs)
    ensures GridAt(sw, col + 1, matrix + [line], best, bestIdx, initial, cs)
  {
    HoldsSnoc(sw, matrix, line);
  }

  // ================================================================ the processor

  /** A request: the graph's nodes and the slider data. `sliderIds` holds
      the `nodeID` of each selected slider. */
  datatype Request = Request(nodes: seq<GraphNode>, prodCapacities: seq<SliderEntry>, sliderIds: seq<string>,
                             autoSimulate: bool, reset: bool)

  datatype MainData = NoData | CellData(cell: CellResult) | MatrixData(matrix: seq<seq<CellResult>>)

  datatype Response = Response(mainData: MainData, bestIdx: seq<SliderEntry>)

  const NotSelected := "IDs of selectedNodes are not in prodCapacities"

  class OptimizerResultProcessor {
    const request: Request
    var nodes: seq<GraphNode>
    var caps: array<SliderEntry>
    var sliderIds: seq<string>
    var autoSimulate: bool
    var reset: bool
    var bestIdx: seq<SliderEntry>

    constructor (request: Request)
      ensures this.request == request
      ensures nodes == [] && caps.Length == 0 && sliderIds == [] && bestIdx == []
      ensures !autoSimulate && !reset
    {
      this.request := request;
      nodes := [];
      caps := new SliderEntry[0];
      sliderIds := [];
      autoSimulate, reset := false, false;
      bestIdx := [];
    }

    /** One cell of `fillMatrixOfCells`: the row slider is set to `row`, the
        configuration is solved, and a strictly cheaper finite cell becomes
        the running best, its configuration copied into `bestIdx`. */
    method VisitCell(solve: seq<SliderEntry> -> SolveOutput, ghost sw: Sweep, col: nat, row: nat, ir: nat,
                     ghost prev: seq<SliderEntry>, ghost line: seq<CellResult>, best0: Option<real>,
                     ghost initial: seq<SliderEntry>)
      returns (cell: Result<CellResult>, best: Option<real>)
      requires sw.Ok() && sw.ir == ir && sw.cellOf == CellFn(solve, nodes) && row < 6 && |prev| == |sw.base|
      requires ColumnAt(sw, prev, col, row, line, best0, bestIdx, initial, caps[..])
      modifies this`bestIdx, caps
      ensures cell == sw.Cell(col, row)
      ensures cell.Success? ==> ColumnAt(sw, prev, col, row + 1, line + [cell.value], best, bestIdx, initial, caps[..])
    {
      ghost var before := caps[..];
      caps[ir] := caps[ir].(value := row as real);
      assert caps[..] == SetValue(before, ir, row as real);
      if row == 0 {
        FirstRow(sw, prev, col);
      } else {
        NextRow(sw, col, row);
      }
      cell := FillCell(solve(caps[..]), nodes);
      best := best0;
      if cell.Failure? {
        return;
      }
      var value := cell.value.matrixData;
      TrackStep(sw, best, bestIdx, initial, col, row, cell.value);
      PrefixSnoc(sw, col, line, cell.value);
      if value.Number? && (best.None? || best.value > value.x) {
        best := Some(value.x);
        bestIdx := caps[..];
      }
    }

    /** Moves the column slider, at position `ic` of the capacities, to `col`. */
    method SetColumn(col: nat, ic: nat)
      requires ic < caps.Length
      modifies caps
      ensures caps[..] == SetValue(old(caps[..]), ic, col as real)
    {
      caps[ic] := caps[ic].(value := col as real);
    }

    /** One column of `fillMatrixOfCells`: the column slider is set to
        `col`, then the row slider runs over 0..5; a cell that raises ends
        the sweep. */
    method FillColumn(solve: seq<SliderEntry> -> SolveOutput, ghost sw: Sweep, col: nat, ic: nat, ir: nat,
                      best0: Option<real>, ghost initial: seq<SliderEntry>, ghost matrix: seq<seq<CellResult>>)
      returns (line: seq<CellResult>, best: Option<real>, failure: Option<string>)
      requires sw.Ok() && sw.ic == ic && sw.ir == ir && sw.cellOf == CellFn(solve, nodes) && col < 6
      requires GridAt(sw, col, matrix, best0, bestIdx, initial, caps[..])
      modifies this`bestIdx, caps
      ensures failure.None? ==> GridAt(sw, col + 1, matrix + [line], best, bestIdx, initial, caps[..])
      ensures failure.Some? ==> !sw.AllSucceed()
    {
      ghost var prev := caps[..];
      StartColumn(sw, col, matrix, best0, bestIdx, initial, prev);
      SetColumn(col, ic);
      line, best, failure := [], best0, None;
      var row := 0;
      while row < 6
        invariant ColumnAt(sw, prev, col, row, line, best, bestIdx, initial, caps[..])
      {
        var cell;
        cell, best := VisitCell(solve, sw, col, row, ir, prev, line, best, initial);
        if cell.Failure? {
          return line, best, Some(cell.error);
        }
        line := line + [cell.value];
        row := row + 1;
      }
      EndColumn(sw, prev, col, line, matrix, best, bestIdx, initial, caps[..]);
    }

    /** The loop of `fillMatrixOfCells` over the columns: every cell is
        solved in turn unless one raises. */
    method SweepGrid(solve: seq<SliderEntry> -> SolveOutput, ghost sw: Sweep, ic: nat, ir: nat,
                     ghost initial: seq<SliderEntry>)
      returns (matrix: seq<seq<CellResult>>, best: Option<real>, failure: Option<string>)
      requires sw.Ok() && sw.ic == ic && sw.ir == ir && sw.cellOf == CellFn(solve, nodes)
      requires caps[..] == sw.base && bestIdx == initial
      modifies this`bestIdx, caps
      ensures failure.None? ==> GridAt(sw, 6, matrix, best, bestIdx, initial, caps[..])
      ensures failure.Some? ==> !sw.AllSucceed()
    {
      best, matrix, failure := None, [], None;
      var col: nat := 0;
      while col < 6
        invariant failure.None?
        invariant GridAt(sw, col, matrix, best, bestIdx, initial, caps[..])
      {
        var line;
        line, best, failure := FillColumn(solve, sw, col, ic, ir, best, initial, matrix);
        if failure.Some? {
          return;
        }
        matrix := matrix + [line];
        col := col + 1;
      }
    }

    /** `fillMatrixOfCells`: finds the two selected sliders, solves the grid
        column by column, and keeps the configuration of the first cell of
        least finite cost as `bestIdx`. The selected entries are left at 5. */
    method FillMatrixOfCells(solve: seq<SliderEntry> -> SolveOutput) returns (r: Result<seq<seq<CellResult>>>)
      modifies this, caps
      ensures caps == old(caps) && nodes == old(nodes) && sliderIds == old(sliderIds)
      ensures autoSimulate == old(autoSimulate) && reset == old(reset)
      ensures SweepOf(old(caps[..]), sliderIds, nodes, solve).None? ==>
                r.Failure? && caps[..] == old(caps[..]) && bestIdx == old(bestIdx)
      ensures r.Success? ==>
                && SweepOf(old(caps[..]), sliderIds, nodes, solve).Some?
                && var sw := SweepOf(old(caps[..]), sliderIds, nodes, solve).value;
                   sw.Holds(r.value) && bestIdx == sw.Best() && caps[..] == sw.Config(5, 5)
      ensures (SweepOf(old(caps[..]), sliderIds, nodes, solve).Some? &&
               SweepOf(old(caps[..]), sliderIds, nodes, solve).value.AllSucceed()) ==> r.Success?
    {
      var sel := Selected(caps[..], sliderIds);
      if sel.None? {
        return Failure(NotSelected);
      }
      var ic, ir := sel.value.0, sel.value.1;
      ghost var sw := SweepOf(caps[..], sliderIds, nodes, solve).value;
      assert sw.ic == ic && sw.ir == ir && sw.cellOf == CellFn(solve, nodes);
      var matrix, best, failure := SweepGrid(solve, sw, ic, ir, bestIdx);
      if failure.Some? {
        return Failure(failure.value);
      }
      if best.None? {
        ConfigEntries(sw, 5, 5);
        bestIdx := Zeroed(caps[..]);
        assert bestIdx == Zeroed(sw.base);
      }
      r := Success(matrix);
    }

    /** `process_response`: copies the request's data into the processor, then
        answers nothing on reset, the whole grid when auto-simulating, and
        the cell of the current capacities otherwise; `bestIdx` is always
        returned alongside. */
    method ProcessResponse(solve: seq<SliderEntry> -> SolveOutput) returns (r: Result<Response>)
      modifies this
      ensures nodes == request.nodes && sliderIds == request.sliderIds
      ensures autoSimulate == request.autoSimulate && reset == request.reset
      ensures fresh(caps)
      ensures request.reset ==>
                r == Success(Response(NoData, old(bestIdx))) && bestIdx == old(bestIdx) &&
                caps[..] == request.prodCapacities
      ensures !request.reset && !request.autoSimulate ==>
                caps[..] == request.prodCapacities && bestIdx == old(bestIdx) &&
                r == match CellOf(solve(request.prodCapacities), request.nodes)
                     case Success(c) => Success(Response(CellData(c), old(bestIdx)))
                     case Failure(e) => Failure(e)
      ensures !request.reset && request.autoSimulate && r.Success? ==>
                && SweepOf(request.prodCapacities, request.sliderIds, request.nodes, solve).Some?
                && var sw := SweepOf(request.prodCapacities, request.sliderIds, request.nodes, solve).value;
                   r.value.mainData.MatrixData? && sw.Holds(r.value.mainData.matrix) &&
                   r.value.bestIdx == bestIdx == sw.Best() && caps[..] == sw.Config(5, 5)
      ensures (!request.reset && request.autoSimulate &&
               SweepOf(request.prodCapacities, request.sliderIds, request.nodes, solve).Some? &&
               SweepOf(request.prodCapacities, request.sliderIds, request.nodes, solve).value.AllSucceed()) ==> r.Success?
      ensures (!request.reset && request.autoSimulate &&
               SweepOf(request.prodCapacities, request.sliderIds, request.nodes, solve).None?) ==> r.Failure?
    {
      nodes := request.nodes;
      var p := request.prodCapacities;
      caps := new SliderEntry[|p|](i requires 0 <= i < |p| => p[i]);
      assert caps[..] == p;
      sliderIds := request.sliderIds;
      autoSimulate := request.autoSimulate;
      reset := request.reset;
      if !reset {
        if autoSimulate {
          var m := FillMatrixOfCells(solve);
          if m.Failure? {
            return Failure(m.error);
          }
          r := Success(Response(MatrixData(m.value), bestIdx));
        } else {
          var c := FillCell(solve(caps[..]), nodes);
          if c.Failure? {
            return Failure(c.error);
          }
          r := Success(Response(CellData(c.value), bestIdx));
        }
      } else {
        r := Success(Response(NoData, bestIdx));
      }
    }
  }
}
