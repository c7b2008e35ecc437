/** The solver-input builder (backend/graph_to_scenario/model_input.py): named
    sets with a dimension, parameters over lists of sets holding values under
    space-joined key strings, the `.dat` text each of them writes, and the
    network input that fills them from the entity records of a scenario.

    Set and parameter objects are updated in place, so they are classes. The
    text that `write` sends to its file is returned as a string instead. A
    float's `str()` is the function parameter `repr`; `:.6f` is `Fixed6`.
    Python's `list(set(...))` has no defined order; the model lists the
    distinct elements in order of first occurrence. */
module ModelInput {
  import opened Wrappers
  import opened Text
  import opened NodeTypes

  // ================================================================ keys

  /** One component of a set element or parameter key: a name, or an integer
      such as a 1-based timestep number. */
  datatype Atom = Word(s: string) | Index(i: int)

  /** `str(a)`. */
  function AtomText(a: Atom): string {
    match a
    case Word(s) => s
    case Index(i) => IntToString(i)
  }

  function AtomTexts(parts: seq<Atom>): (r: seq<string>)
    ensures |r| == |parts| && forall k :: 0 <= k < |parts| ==> r[k] == AtomText(parts[k])
  {
    seq(|parts|, k requires 0 <= k < |parts| => AtomText(parts[k]))
  }

  /** `" ".join(str(x) for x in parts)`: the dictionary key of a parameter value. */
  function KeyString(parts: seq<Atom>): string {
    Join(" ", AtomTexts(parts))
  }

  /** The key argument of `add_value`: a single value, or a list or tuple. */
  datatype Key = Single(a: Atom) | Many(parts: seq<Atom>)

  /** The key as `is_key_valid` sees it: a single value is wrapped in a list. */
  function KeyParts(key: Key): seq<Atom> {
    match key
    case Single(a) => [a]
    case Many(parts) => parts
  }

  predicate SpaceFree(parts: seq<Atom>) {
    forall k :: 0 <= k < |parts| ==> Free(AtomText(parts[k]), ' ')
  }

  /** Splitting a key string at its spaces gives back the components' text
      when no component contains a space. */
  lemma KeyStringRoundTrip(parts: seq<Atom>)
    requires |parts| >= 1 && SpaceFree(parts)
    ensures Split(KeyString(parts), ' ') == AtomTexts(parts)
  {
    assert " " == [' '];
    SplitJoin(AtomTexts(parts), ' ');
  }

  /** So two such keys name the same dictionary entry exactly when their
      components have the same text. */
  lemma KeyStringInjective(a: seq<Atom>, b: seq<Atom>)
    requires |a| >= 1 && SpaceFree(a) && |b| >= 1 && SpaceFree(b)
    ensures KeyString(a) == KeyString(b) <==> AtomTexts(a) == AtomTexts(b)
  {
    KeyStringRoundTrip(a);
    KeyStringRoundTrip(b);
  }

  // ================================================================ dictionaries

  /** A Python dict from key strings to values: its keys in insertion order,
      and the values. */
  datatype Dict = Dict(keys: seq<string>, values: map<string, Scalar>) {
    predicate Valid() {
      && (forall i, j :: 0 <= i < j < |keys| ==> keys[i] != keys[j])
      && (forall k :: k in values ==> k in keys)
      && (forall i :: 0 <= i < |keys| ==> keys[i] in values)
    }

    /** `d[k] = v`: a new key goes last, an existing key keeps its place and
        gets the new value. */
    function Put(k: string, v: Scalar): (r: Dict)
      ensures Valid() ==> r.Valid()
      ensures r.values == values[k := v]
      ensures k in values ==> r.keys == keys
      ensures k !in values ==> r.keys == keys + [k]
    {
      Dict(if k in values then keys else keys + [k], values[k := v])
    }
  }

  const EMPTY: Dict := Dict([], map[])

  /** `value * sf`; NaN stays NaN. */
  function Scale(v: Scalar, sf: real): Scalar {
    match v
    case Num(x) => Num(x * sf)
    case NaN => NaN
  }

  // ================================================================ sets

  function ElementLine(dim: nat, v: seq<Atom>): string {
    if dim > 1 then KeyString(v) else KeyString(v) + " "
  }

  function ElementLines(dim: nat, val: seq<seq<Atom>>): (r: seq<string>)
    ensures |r| == |val| && forall k :: 0 <= k < |val| ==> r[k] == ElementLine(dim, val[k])
  {
    if val == [] then [] else ElementLines(dim, val[..|val| - 1]) + [ElementLine(dim, val[|val| - 1])]
  }

  /** The text `ModelSet.write` emits. */
  function SetText(name: string, dim: nat, val: seq<seq<Atom>>): string {
    "set " + name + " := \n" + Unlines(ElementLines(dim, val)) + "; \n\n"
  }

  /** Read back line by line, a set's text is its header, one line per
      element in order, and the closing `; ` followed by an empty line. */
  lemma SetTextLines(name: string, dim: nat, val: seq<seq<Atom>>)
    requires Free(name, '\n')
    requires forall k, j :: 0 <= k < |val| && 0 <= j < |val[k]| ==> Free(AtomText(val[k][j]), '\n')
    ensures Split(SetText(name, dim, val), '\n') == ["set " + name + " := "] + ElementLines(dim, val) + ["; ", "", ""]
  {
    var header := "set " + name + " := ";
    var lines := [header] + ElementLines(dim, val) + ["; ", ""];
    ElementLinesFree(dim, val);
    SetTextUnlines(name, dim, val);
    assert forall i :: 0 <= i < |lines| ==> Free(lines[i], '\n');
    SplitUnlines(lines);
  }

  lemma ElementLinesFree(dim: nat, val: seq<seq<Atom>>)
    requires forall k, j :: 0 <= k < |val| && 0 <= j < |val[k]| ==> Free(AtomText(val[k][j]), '\n')
    ensures forall i :: 0 <= i < |val| ==> Free(ElementLines(dim, val)[i], '\n')
  {
    var body := ElementLines(dim, val);
    forall i | 0 <= i < |body|
      ensures Free(body[i], '\n')
    {
      JoinFree(AtomTexts(val[i]), '\n');
    }
  }

  lemma UnlinesFrame(h: string, body: seq<string>, t: seq<string>)
    ensures Unlines([h] + body + t) == h + "\n" + Unlines(body) + Unlines(t)
  {
    UnlinesAppend([h] + body, t);
    UnlinesAppend([h], body);
    assert ([h])[1..] == [];
  }

  /** A set's text is its lines, each followed by a newline. */
  lemma SetTextUnlines(name: string, dim: nat, val: seq<seq<Atom>>)
    ensures Unlines(["set " + name + " := "] + ElementLines(dim, val) + ["; ", ""]) == SetText(name, dim, val)
  {
    UnlinesFrame("set " + name + " := ", ElementLines(dim, val), ["; ", ""]);
    SetTextPieces(name, Unlines(ElementLines(dim, val)));
  }

  lemma SetTextPieces(name: string, u: string)
    ensures "set " + name + " := " + "\n" + u + Unlines(["; ", ""]) == "set " + name + " := \n" + u + "; \n\n"
  {
    assert Unlines(["; ", ""]) == "; \n\n";
  }

  /** Each element line of a set of dimension above 1 splits at its spaces
      into the element's components; a one-component element of a set of
      dimension 1 is written followed by a space. */
  lemma ElementLineParts(dim: nat, v: seq<Atom>)
    requires |v| >= 1 && SpaceFree(v)
    ensures dim > 1 ==> Split(ElementLine(dim, v), ' ') == AtomTexts(v)
    ensures dim <= 1 && |v| == 1 ==> ElementLine(dim, v) == AtomText(v[0]) + " "
  {
    KeyStringRoundTrip(v);
  }

  lemma {:induction false} JoinFree(parts: seq<string>, c: char)
    requires c != ' '
    requires forall i :: 0 <= i < |parts| ==> Free(parts[i], c)
    ensures Free(Join(" ", parts), c)
    ensures Free(Join(" ", parts) + " ", c)
  {
    if |parts| > 1 {
      JoinFree(parts[1..], c);
    }
  }

  class ModelSet {
    const name: string
    const dim: nat
    var val: seq<seq<Atom>>

    constructor (name: string, dim: nat)
      ensures this.name == name && this.dim == dim && val == []
    {
      this.name, this.dim := name, dim;
      val := [];
    }

    /** `write(f)`: the text sent to `f`. */
    method Write() returns (text: string)
      ensures text == SetText(name, dim, val)
    {
      var body := "";
      var i := 0;
      while i < |val|
        invariant 0 <= i <= |val|
        invariant body == Unlines(ElementLines(dim, val[..i]))
      {
        var line := ElementLine(dim, val[i]);
        TakeSnoc(val, i);
        assert ElementLines(dim, val[..i + 1]) == ElementLines(dim, val[..i]) + [line];
        UnlinesSnoc(ElementLines(dim, val[..i]), line);
        body := body + line + "\n";
        i := i + 1;
      }
      TakeAll(val, i);
      text := "set " + name + " := \n" + body + "; \n\n";
    }
  }

  // ================================================================ parameters

  /** `f"{v}"` for the value of a parameter of dimension 0 or 1. */
  function ValueText(v: Scalar, repr: real -> string): string {
    match v
    case Num(x) => repr(x)
    case NaN => "nan"
  }

  /** `f"{values.get(pos, 0):.6f}"`: a missing cell is written as 0 is. */
  function CellText(values: map<string, Scalar>, pos: string): string {
    if pos !in values then Fixed6(0.0)
    else
      match values[pos]
      case Num(x) => Fixed6(x)
      case NaN => "nan"
  }

  /** The lines of a parameter of dimension 1: `key value` for each entry in
      insertion order, skipping NaN values. */
  function Dim1Lines(keys: seq<string>, values: map<string, Scalar>, repr: real -> string): seq<string>
    requires forall i :: 0 <= i < |keys| ==> keys[i] in values
  {
    if keys == [] then []
    else
      var k := keys[|keys| - 1];
      Dim1Lines(keys[..|keys| - 1], values, repr) + (if values[k].NaN? then [] else [k + " " + repr(values[k].r)])
  }

  /** The row part of a two-component key: the text before its first space. */
  function RowOf(k: string): string {
    Split(k, ' ')[0]
  }

  function RowsOf(keys: seq<string>): (r: seq<string>)
    ensures |r| == |keys| && forall i :: 0 <= i < |keys| ==> r[i] == RowOf(keys[i])
  {
    seq(|keys|, i requires 0 <= i < |keys| => RowOf(keys[i]))
  }

  /** The column parts of the keys, `None` if a key has no space (where
      `key.split(" ")[1]` raises IndexError). */
  function ColsOf(keys: seq<string>): (r: Option<seq<string>>)
    ensures r.Some? <==> forall i :: 0 <= i < |keys| ==> |Split(keys[i], ' ')| >= 2
    ensures r.Some? ==> |r.value| == |keys| && forall i :: 0 <= i < |keys| ==> r.value[i] == Split(keys[i], ' ')[1]
  {
    if forall i :: 0 <= i < |keys| ==> |Split(keys[i], ' ')| >= 2
    then Some(seq(|keys|, i requires 0 <= i < |keys| && |Split(keys[i], ' ')| >= 2 => Split(keys[i], ' ')[1]))
    else None
  }

  /** The distinct elements of `xs` in order of first occurrence. */
  function Distinct<T(==, !new)>(xs: seq<T>): (r: seq<T>)
    ensures forall i, j :: 0 <= i < j < |r| ==> r[i] != r[j]
    ensures forall x :: x in r <==> x in xs
  {
    if xs == [] then []
    else
      var d := Distinct(xs[..|xs| - 1]);
      assert forall x :: x in xs <==> x in xs[..|xs| - 1] || x == xs[|xs| - 1];
      if xs[|xs| - 1] in d then d else d + [xs[|xs| - 1]]
  }

  predicate AllInts(cs: seq<string>) {
    forall i :: 0 <= i < |cs| ==> ParseInt(cs[i]).Some?
  }

  /** `int(c)`, where it parses. */
  function IntVal(c: string): int {
    ParseInt(c).GetOr(0)
  }

  predicate SortedByInt(cs: seq<string>) {
    forall i, j :: 0 <= i < j < |cs| ==> IntVal(cs[i]) <= IntVal(cs[j])
  }

  /** `c` inserted after every column whose number is not greater. */
  function InsertByInt(c: string, cs: seq<string>): seq<string> {
    if cs == [] then [c]
    else if IntVal(c) < IntVal(cs[0]) then [c] + cs
    else [cs[0]] + InsertByInt(c, cs[1..])
  }

  /** `sorted(cs, key=int)`, an insertion sort that keeps equal keys in
      their original order. */
  function SortByInt(cs: seq<string>): seq<string> {
    if cs == [] then [] else InsertByInt(cs[|cs| - 1], SortByInt(cs[..|cs| - 1]))
  }

  /** A column not above any column of a sorted list can go in front of it. */
  lemma SortedCons(c: string, cs: seq<string>)
    requires SortedByInt(cs)
    requires forall j :: 0 <= j < |cs| ==> IntVal(c) <= IntVal(cs[j])
    ensures SortedByInt([c] + cs)
  {
    var r := [c] + cs;
    forall i, j | 0 <= i < j < |r|
      ensures IntVal(r[i]) <= IntVal(r[j])
    {
      assert r[j] == cs[j - 1];
      if i > 0 {
        assert r[i] == cs[i - 1];
      }
    }
  }

  /** Every element of `rest` is `c` or an element of `tail`. */
  lemma BoundByParts(lo: int, c: string, tail: seq<string>, rest: seq<string>)
    requires multiset(rest) == multiset(tail) + multiset{c}
    requires lo <= IntVal(c)
    requires forall k :: 0 <= k < |tail| ==> lo <= IntVal(tail[k])
    ensures forall j :: 0 <= j < |rest| ==> lo <= IntVal(rest[j])
  {
    forall j | 0 <= j < |rest|
      ensures lo <= IntVal(rest[j])
    {
      assert rest[j] in multiset(rest);
      if rest[j] != c {
        assert rest[j] in multiset(tail);
        var k :| 0 <= k < |tail| && tail[k] == rest[j];
      }
    }
  }

  /** The tail of a sorted list is sorted and bounded below by its head. */
  lemma SortedTail(cs: seq<string>)
    requires cs != [] && SortedByInt(cs)
    ensures cs == [cs[0]] + cs[1..] && SortedByInt(cs[1..])
    ensures forall k :: 0 <= k < |cs[1..]| ==> IntVal(cs[0]) <= IntVal(cs[1..][k])
  {
    var tail := cs[1..];
    assert forall k :: 0 <= k < |tail| ==> tail[k] == cs[k + 1];
  }

  lemma {:induction false} InsertByIntSorted(c: string, cs: seq<string>)
    requires SortedByInt(cs)
    ensures SortedByInt(InsertByInt(c, cs))
    ensures multiset(InsertByInt(c, cs)) == multiset(cs) + multiset{c}
  {
    if cs == [] {
    } else if IntVal(c) < IntVal(cs[0]) {
      SortedCons(c, cs);
    } else {
      var tail := cs[1..];
      var rest := InsertByInt(c, tail);
      SortedTail(cs);
      InsertByIntSorted(c, tail);
      BoundByParts(IntVal(cs[0]), c, tail, rest);
      SortedCons(cs[0], rest);
    }
  }

  lemma {:induction false} SortByIntSorted(cs: seq<string>)
    ensures SortedByInt(SortByInt(cs))
    ensures multiset(SortByInt(cs)) == multiset(cs)
  {
    if cs != [] {
      var init, last := cs[..|cs| - 1], cs[|cs| - 1];
      var sorted := SortByInt(init);
      assert SortByInt(cs) == InsertByInt(last, sorted);
      SortByIntSorted(init);
      InsertByIntSorted(last, sorted);
      assert multiset(cs) == multiset(init) + multiset{last} by {
        assert cs == init + [last];
      }
    }
  }

  /** The column order of a table: numeric when every column is an integer
      (the `ValueError` of `int` keeps the order otherwise). */
  function OrderColumns(cs: seq<string>): seq<string> {
    if AllInts(cs) then SortByInt(cs) else cs
  }

  /** Integer columns come out in ascending numeric order and are a
      permutation of the columns given; other columns keep their order. */
  lemma OrderColumnsSorted(cs: seq<string>)
    ensures AllInts(cs) ==> SortedByInt(OrderColumns(cs)) && multiset(OrderColumns(cs)) == multiset(cs)
    ensures !AllInts(cs) ==> OrderColumns(cs) == cs
  {
    SortByIntSorted(cs);
  }

  /** Cells each followed by a space. */
  function SpacedCells(cells: seq<string>): string {
    if cells == [] then "" else cells[0] + " " + SpacedCells(cells[1..])
  }

  function RowCells(values: map<string, Scalar>, r: string, cols: seq<string>): (cells: seq<string>)
    ensures |cells| == |cols| && forall j :: 0 <= j < |cols| ==> cells[j] == CellText(values, r + " " + cols[j])
  {
    seq(|cols|, j requires 0 <= j < |cols| => CellText(values, r + " " + cols[j]))
  }

  /** One row of a table: the row name, then one cell per column. */
  function RowLine(values: map<string, Scalar>, r: string, cols: seq<string>): string {
    r + " " + SpacedCells(RowCells(values, r, cols))
  }

  function RowLines(values: map<string, Scalar>, rows: seq<string>, cols: seq<string>): (lines: seq<string>)
    ensures |lines| == |rows| && forall i :: 0 <= i < |rows| ==> lines[i] == RowLine(values, rows[i], cols)
  {
    seq(|rows|, i requires 0 <= i < |rows| => RowLine(values, rows[i], cols))
  }

  /** What a parameter's `write` sends to its file, and whether it then raised. */
  datatype Written = Written(text: string, failed: bool)

  /** `not self.vals`: an untouched parameter, a zero scalar, or an empty dict. */
  predicate Falsy(dim: nat, scalar: Option<Scalar>, d: Dict) {
    if dim == 0 then scalar.None? || scalar == Some(Num(0.0)) else |d.keys| == 0
  }

  /** The text `ModelParam.write` emits. */
  function ParamText(name: string, dim: nat, scalar: Option<Scalar>, d: Dict, repr: real -> string): Written
    requires d.Valid()
  {
    if Falsy(dim, scalar, d) then Written("", false)
    else if dim == 0 then Written("param " + name + " := " + ValueText(scalar.value, repr) + "\n" + ";\n\n", false)
    else if dim == 1 then Written("param " + name + " := \n" + Unlines(Dim1Lines(d.keys, d.values, repr)) + ";\n\n", false)
    else if dim == 2 then
      match ColsOf(d.keys)
      case None => Written("param " + name + " : ", true)
      case Some(cs) =>
        var rows := Distinct(RowsOf(d.keys));
        var cols := OrderColumns(Distinct(cs));
        Written("param " + name + " : " + Join(" ", cols) + " :=\n" + Unlines(RowLines(d.values, rows, cols)) + ";\n\n", false)
    else Written("param " + name, true)
  }

  function SetNames(setList: seq<ModelSet>): (r: seq<string>)
    ensures |r| == |setList| && forall i :: 0 <= i < |setList| ==> r[i] == setList[i].name
  {
    if setList == [] then [] else SetNames(setList[..|setList| - 1]) + [setList[|setList| - 1].name]
  }

  function TotalDim(setList: seq<ModelSet>): nat {
    if setList == [] then 0 else TotalDim(setList[..|setList| - 1]) + setList[|setList| - 1].dim
  }

  class ModelParam {
    const name: string
    const setNames: seq<string>
    const dim: nat
    const sf: real
    /** The value of a parameter of dimension 0, `None` while `vals` is
        still the empty dict it starts as. */
    var scalar: Option<Scalar>
    var vals: Dict

    predicate Valid()
      reads this
    {
      vals.Valid()
    }

    constructor (name: string, setList: seq<ModelSet>, sf: real)
      ensures this.name == name && setNames == SetNames(setList) && dim == TotalDim(setList) && this.sf == sf
      ensures scalar == None && vals == EMPTY && Valid()
    {
      var d := 0;
      var names := [];
      var i := 0;
      while i < |setList|
        invariant 0 <= i <= |setList|
        invariant d == TotalDim(setList[..i]) && names == SetNames(setList[..i])
      {
        TakeSnoc(setList, i);
        d := d + setList[i].dim;
        names := names + [setList[i].name];
        i := i + 1;
      }
      TakeAll(setList, i);
      this.name, this.setNames, this.dim, this.sf := name, names, d, sf;
      scalar, vals := None, EMPTY;
    }

    /** `is_key_valid(key)`: the key as a list, or the ValueError raised for
        a key whose length is not the dimension. */
    function IsKeyValid(key: Key): (r: Result<seq<Atom>>)
      ensures r.Success? <==> |KeyParts(key)| == dim
      ensures r.Success? ==> r.value == KeyParts(key)
    {
      var parts := KeyParts(key);
      if |parts| != dim then Failure("invalid key size") else Success(parts)
    }

    /** `add_value(value, key)`; `ok` is false where it raises. */
    method AddValue(value: Scalar, key: Key) returns (ok: bool)
      modifies this
      ensures dim == 0 ==> ok && scalar == Some(Scale(value, sf)) && vals == old(vals)
      ensures dim != 0 && |KeyParts(key)| != dim ==> !ok && scalar == old(scalar) && vals == old(vals)
      ensures dim != 0 && |KeyParts(key)| == dim ==>
                ok && scalar == old(scalar) && vals == old(vals).Put(KeyString(KeyParts(key)), Scale(value, sf))
    {
      if dim == 0 {
        scalar := Some(Scale(value, sf));
        return true;
      }
      var checked := IsKeyValid(key);
      if checked.Failure? {
        return false;
      }
      var nkey := Join(" ", AtomTexts(checked.value));
      vals := vals.Put(nkey, Scale(value, sf));
      ok := true;
    }

    /** `write(f)`: the text sent to `f`, and whether it then raised. */
    method Write(repr: real -> string) returns (text: string, failed: bool)
      requires Valid()
      ensures Written(text, failed) == ParamText(name, dim, scalar, vals, repr)
    {
      if Falsy(dim, scalar, vals) {
        return "", false;
      }
      text := "param " + name;
      failed := false;
      if dim == 0 {
        text := text + " := " + ValueText(scalar.value, repr) + "\n";
      } else if dim == 1 {
        text := text + " := \n";
        text := WriteDim1(text, repr);
      } else if dim == 2 {
        text := text + " : ";
        var cs := ColsOf(vals.keys);
        if cs.None? {
          return text, true;
        }
        var rows := Distinct(RowsOf(vals.keys));
        var cols := OrderColumns(Distinct(cs.value));
        text := text + Join(" ", cols) + " :=\n";
        text := WriteTable(text, rows, cols);
      } else {
        return text, true;
      }
      text := text + ";\n\n";
    }

    /** The loop of `write` for dimension 1. */
    method WriteDim1(head: string, repr: real -> string) returns (text: string)
      requires Valid()
      ensures text == head + Unlines(Dim1Lines(vals.keys, vals.values, repr))
    {
      var body := "";
      var keys := vals.keys;
      var i := 0;
      while i < |keys|
        invariant 0 <= i <= |keys|
        invariant body == Unlines(Dim1Lines(keys[..i], vals.values, repr))
      {
        var k := keys[i];
        TakeSnoc(keys, i);
        var value := vals.values[k];
        if !value.NaN? {
          var line := k + " " + repr(value.r);
          assert Dim1Lines(keys[..i + 1], vals.values, repr) == Dim1Lines(keys[..i], vals.values, repr) + [line];
          UnlinesSnoc(Dim1Lines(keys[..i], vals.values, repr), line);
          body := body + line + "\n";
        } else {
          assert Dim1Lines(keys[..i + 1], vals.values, repr) == Dim1Lines(keys[..i], vals.values, repr);
        }
        i := i + 1;
      }
      TakeAll(keys, i);
      text := head + body;
    }

    /** The nested loops of `write` for dimension 2: one line per row, one
        cell per column. */
    method WriteTable(head: string, rows: seq<string>, cols: seq<string>) returns (text: string)
      ensures text == head + Unlines(RowLines(vals.values, rows, cols))
    {
      var body := "";
      var i := 0;
      while i < |rows|
        invariant 0 <= i <= |rows|
        invariant body == Unlines(RowLines(vals.values, rows[..i], cols))
      {
        var line := WriteRow(rows[i], cols);
        assert RowLines(vals.values, rows[..i + 1], cols) == RowLines(vals.values, rows[..i], cols) + [line];
        UnlinesSnoc(RowLines(vals.values, rows[..i], cols), line);
        body := body + line + "\n";
        i := i + 1;
      }
      TakeAll(rows, i);
      text := head + body;
    }

    /** The inner loop of the table: the row name and its cells. */
    method WriteRow(r: string, cols: seq<string>) returns (line: string)
      ensures line == RowLine(vals.values, r, cols)
    {
      var cells := "";
      var j := 0;
      while j < |cols|
        invariant 0 <= j <= |cols|
        invariant cells == SpacedCells(RowCells(vals.values, r, cols[..j]))
      {
        var cell := CellText(vals.values, r + " " + cols[j]);
        assert RowCells(vals.values, r, cols[..j + 1]) == RowCells(vals.values, r, cols[..j]) + [cell];
        SpacedCellsSnoc(RowCells(vals.values, r, cols[..j]), cell);
        cells := cells + cell + " ";
        j := j + 1;
      }
      TakeAll(cols, j);
      line := r + " " + cells;
    }
  }

  lemma {:induction false} SpacedCellsSnoc(cells: seq<string>, c: string)
    ensures SpacedCells(cells + [c]) == SpacedCells(cells) + c + " "
  {
    if cells == [] {
      assert [c][1..] == [];
    } else {
      assert (cells + [c])[1..] == cells[1..] + [c];
      SpacedCellsSnoc(cells[1..], c);
    }
  }

  // ---------------------------------------------------------------- what a parameter writes

  /** Nothing is written for an empty parameter; a parameter of dimension 3
      or more writes its `param NAME` header and then raises; a table whose
      keys are not all two-part raises after its ` : `. */
  lemma ParamTextCases(name: string, dim: nat, scalar: Option<Scalar>, d: Dict, repr: real -> string)
    requires d.Valid()
    ensures Falsy(dim, scalar, d) ==> ParamText(name, dim, scalar, d, repr) == Written("", false)
    ensures !Falsy(dim, scalar, d) && dim >= 3 ==> ParamText(name, dim, scalar, d, repr) == Written("param " + name, true)
    ensures !Falsy(dim, scalar, d) && dim == 2 && (exists i :: 0 <= i < |d.keys| && |Split(d.keys[i], ' ')| < 2) ==>
              ParamText(name, dim, scalar, d, repr) == Written("param " + name + " : ", true)
    ensures ParamText(name, dim, scalar, d, repr).failed <==>
              !Falsy(dim, scalar, d) && (dim >= 3 || (dim == 2 && ColsOf(d.keys).None?))
  {
  }

  lemma {:induction false} Dim1Entries(keys: seq<string>, values: map<string, Scalar>, repr: real -> string)
    requires forall i :: 0 <= i < |keys| ==> keys[i] in values
    ensures forall i :: 0 <= i < |keys| && values[keys[i]].Num? ==>
              keys[i] + " " + repr(values[keys[i]].r) in Dim1Lines(keys, values, repr)
    ensures forall line :: line in Dim1Lines(keys, values, repr) ==>
              exists i :: 0 <= i < |keys| && values[keys[i]].Num? && line == keys[i] + " " + repr(values[keys[i]].r)
  {
    if keys != [] {
      var init := keys[..|keys| - 1];
      Dim1Entries(init, values, repr);
      assert forall i :: 0 <= i < |init| ==> init[i] == keys[i];
    }
  }

  /** The lines of dimension 1 are exactly the `key value` lines of the
      entries whose value is not NaN. */
  lemma Dim1Members(d: Dict, repr: real -> string)
    requires d.Valid()
    ensures var lines := Dim1Lines(d.keys, d.values, repr);
      && (forall k :: k in d.values && d.values[k].Num? ==> k + " " + repr(d.values[k].r) in lines)
      && (forall line :: line in lines ==> exists k :: k in d.values && d.values[k].Num? && line == k + " " + repr(d.values[k].r))
  {
    var lines := Dim1Lines(d.keys, d.values, repr);
    Dim1Entries(d.keys, d.values, repr);
    forall k | k in d.values && d.values[k].Num?
      ensures k + " " + repr(d.values[k].r) in lines
    {
      var i :| 0 <= i < |d.keys| && d.keys[i] == k;
    }
  }

  lemma Dim1Shape(name: string, scalar: Option<Scalar>, d: Dict, repr: real -> string)
    requires d.Valid() && |d.keys| > 0
    ensures ParamText(name, 1, scalar, d, repr).text ==
              ("param " + name + " := ") + "\n" + Unlines(Dim1Lines(d.keys, d.values, repr)) + ";" + "\n\n"
  {
    assert "param " + name + " := \n" == ("param " + name + " := ") + "\n";
    assert ";\n\n" == ";" + "\n\n";
  }

  /** A parameter of dimension 1 writes its header, then one `key value`
      line per entry whose value is not NaN (`Dim1Members`), then `;`. */
  lemma Dim1Text(name: string, scalar: Option<Scalar>, d: Dict, repr: real -> string)
    requires d.Valid() && |d.keys| > 0
    requires Free(name, '\n')
    requires forall i :: 0 <= i < |d.keys| ==> Free(d.keys[i], '\n')
    requires forall x :: Free(repr(x), '\n')
    ensures Split(ParamText(name, 1, scalar, d, repr).text, '\n') ==
              ["param " + name + " := "] + Dim1Lines(d.keys, d.values, repr) + [";", "", ""]
  {
    Dim1LinesFree(d, repr);
    Dim1Shape(name, scalar, d, repr);
    BodyLines("param " + name + " := ", Dim1Lines(d.keys, d.values, repr), ";");
  }

  lemma Dim1LinesFree(d: Dict, repr: real -> string)
    requires d.Valid()
    requires forall i :: 0 <= i < |d.keys| ==> Free(d.keys[i], '\n')
    requires forall x :: Free(repr(x), '\n')
    ensures forall line :: line in Dim1Lines(d.keys, d.values, repr) ==> Free(line, '\n')
  {
    KeyLinesFree(d.keys, d.values, repr);
  }

  lemma {:induction false} KeyLinesFree(keys: seq<string>, values: map<string, Scalar>, repr: real -> string)
    requires forall i :: 0 <= i < |keys| ==> keys[i] in values
    requires forall i :: 0 <= i < |keys| ==> Free(keys[i], '\n')
    requires forall x :: Free(repr(x), '\n')
    ensures forall line :: line in Dim1Lines(keys, values, repr) ==> Free(line, '\n')
  {
    if keys != [] {
      var init := keys[..|keys| - 1];
      var k := keys[|keys| - 1];
      assert forall i :: 0 <= i < |init| ==> init[i] == keys[i];
      KeyLinesFree(init, values, repr);
      if values[k].Num? {
        assert Free(" ", '\n');
        FreeAppend(k, " ", '\n');
        FreeAppend(k + " ", repr(values[k].r), '\n');
      }
    }
  }

  /** Text of a header line, body lines and a closing `;` read back line by line. */
  lemma BodyLines(header: string, lines: seq<string>, tail: string)
    requires Free(header, '\n') && Free(tail, '\n')
    requires forall line :: line in lines ==> Free(line, '\n')
    ensures Split(header + "\n" + Unlines(lines) + tail + "\n\n", '\n') == [header] + lines + [tail, "", ""]
  {
    var first := [header] + lines;
    var all := first + [tail] + [""];
    var u1 := Unlines(first);
    assert u1 == header + "\n" + Unlines(lines) by {
      assert first[1..] == lines;
    }
    UnlinesSnoc(first, tail);
    UnlinesSnoc(first + [tail], "");
    var text := header + "\n" + Unlines(lines) + tail + "\n\n";
    assert text == Unlines(all) by {
      assert "\n\n" == "\n" + "" + "\n";
      assert Unlines(all) == u1 + tail + "\n" + "" + "\n";
    }
    forall i | 0 <= i < |all| ensures Free(all[i], '\n') {
      if 0 < i <= |lines| {
        assert all[i] == lines[i - 1];
      }
    }
    SplitUnlines(all);
    assert all + [""] == [header] + lines + [tail, "", ""];
  }

  /** A table cell is a fixed-point number or `nan`: it holds no space. */
  lemma CellTextFree(values: map<string, Scalar>, pos: string)
    ensures Free(CellText(values, pos), ' ') && Free(CellText(values, pos), '\n')
    ensures pos !in values ==> CellText(values, pos) == "0.000000"
  {
    Fixed6OfZero();
    if pos in values && values[pos].Num? {
      Fixed6Chars(values[pos].r);
    } else {
      Fixed6Chars(0.0);
    }
  }

  lemma {:induction false} SplitSpacedCells(cells: seq<string>)
    requires forall j :: 0 <= j < |cells| ==> Free(cells[j], ' ')
    ensures Split(SpacedCells(cells), ' ') == cells + [""]
  {
    if cells != [] {
      SplitSpacedCells(cells[1..]);
      SplitAfterPart(cells[0], ' ', SpacedCells(cells[1..]));
      assert cells[0] + " " + SpacedCells(cells[1..]) == cells[0] + [' '] + SpacedCells(cells[1..]);
      assert [cells[0]] + (cells[1..] + [""]) == cells + [""];
    }
  }

  /** A table row read back at its spaces is the row name, the cell of each
      column in column order, and an empty last part. */
  lemma RowLineParts(values: map<string, Scalar>, r: string, cols: seq<string>)
    requires Free(r, ' ')
    ensures Split(RowLine(values, r, cols), ' ') == [r] + RowCells(values, r, cols) + [""]
  {
    var cells := RowCells(values, r, cols);
    forall j | 0 <= j < |cells| ensures Free(cells[j], ' ') {
      CellTextFree(values, r + " " + cols[j]);
    }
    SplitSpacedCells(cells);
    SplitAfterPart(r, ' ', SpacedCells(cells));
    assert r + " " + SpacedCells(cells) == r + [' '] + SpacedCells(cells);
  }

  /** In a table, every key `a b` (no space inside `a` or `b`) has its row
      `a` among the rows and its column `b` among the columns, each listed
      once, and the cell at that row and column holds the key's value with
      six decimals (`RowLineParts` reads a row back into its cells). */
  lemma TableCell(d: Dict, a: string, b: string)
    requires d.Valid() && ColsOf(d.keys).Some?
    requires Free(a, ' ') && Free(b, ' ')
    requires a + " " + b in d.values
    ensures var rows := Distinct(RowsOf(d.keys));
            var cols := OrderColumns(Distinct(ColsOf(d.keys).value));
            && a in rows && b in cols
            && (forall i, j :: 0 <= i < j < |rows| ==> rows[i] != rows[j])
            && (forall i, j :: 0 <= i < j < |cols| ==> cols[i] != cols[j])
            && CellText(d.values, a + " " + b) ==
                 match d.values[a + " " + b] case Num(x) => Fixed6(x) case NaN => "nan"
  {
    var cs := ColsOf(d.keys).value;
    var k := a + " " + b;
    var n :| 0 <= n < |d.keys| && d.keys[n] == k;
    KeyStringRoundTrip([Word(a), Word(b)]);
    assert KeyString([Word(a), Word(b)]) == k by {
      assert AtomTexts([Word(a), Word(b)]) == [a, b];
      JoinTwo(a, b);
    }
    assert a in Distinct(RowsOf(d.keys)) by {
      assert RowsOf(d.keys)[n] == a;
    }
    assert b in Distinct(cs) by {
      assert cs[n] == b;
    }
    TableColumns(cs, b);
  }

  /** A column of the key list is among the ordered columns, each listed once. */
  lemma TableColumns(cs: seq<string>, b: string)
    requires b in Distinct(cs)
    ensures var cols := OrderColumns(Distinct(cs));
            b in cols && forall i, j :: 0 <= i < j < |cols| ==> cols[i] != cols[j]
  {
    OrderColumnsSorted(Distinct(cs));
    DistinctPermutation(Distinct(cs), OrderColumns(Distinct(cs)));
    assert b in multiset(Distinct(cs));
  }

  lemma JoinTwo(a: string, b: string)
    ensures Join(" ", [a, b]) == a + " " + b
  {
    assert [a, b][1..] == [b];
  }

  /** A permutation of a list without repeats has no repeats. */
  lemma DistinctPermutation(xs: seq<string>, ys: seq<string>)
    requires forall i, j :: 0 <= i < j < |xs| ==> xs[i] != xs[j]
    requires multiset(xs) == multiset(ys) || xs == ys
    ensures forall i, j :: 0 <= i < j < |ys| ==> ys[i] != ys[j]
  {
    if xs != ys {
      forall i, j | 0 <= i < j < |ys| ensures ys[i] != ys[j] {
        if ys[i] == ys[j] {
          assert multiset(ys)[ys[i]] >= 2 by {
            var m := ys[..j];
            assert ys == m + ys[j..];
            assert ys[i] in m;
            assert multiset(m)[ys[i]] >= 1;
            assert multiset(ys[j..])[ys[j]] >= 1;
          }
          DistinctCount(xs, ys[i]);
          assert false;
        }
      }
    }
  }

  lemma {:induction false} DistinctCount(xs: seq<string>, x: string)
    requires forall i, j :: 0 <= i < j < |xs| ==> xs[i] != xs[j]
    ensures multiset(xs)[x] <= 1
  {
    if xs != [] {
      var init := xs[..|xs| - 1];
      DistinctCount(init, x);
      assert xs == init + [xs[|xs| - 1]];
      if xs[|xs| - 1] == x {
        assert x !in init;
      }
    }
  }

  lemma TableShape(name: string, scalar: Option<Scalar>, d: Dict, repr: real -> string,
                    rows: seq<string>, cols: seq<string>, header: string)
    requires d.Valid() && |d.keys| > 0 && ColsOf(d.keys).Some?
    requires rows == Distinct(RowsOf(d.keys)) && cols == OrderColumns(Distinct(ColsOf(d.keys).value))
    requires header == "param " + name + " : " + Join(" ", cols) + " :="
    ensures ParamText(name, 2, scalar, d, repr).text == header + "\n" + Unlines(RowLines(d.values, rows, cols)) + ";" + "\n\n"
  {
    TablePieces(name, Join(" ", cols), Unlines(RowLines(d.values, rows, cols)));
  }

  lemma TablePieces(name: string, j: string, u: string)
    ensures "param " + name + " : " + j + " :=\n" + u + ";\n\n" == ("param " + name + " : " + j + " :=") + "\n" + u + ";" + "\n\n"
  {
  }

  /** Every column name of a table holds no newline when no key does. */
  lemma ColumnsFree(d: Dict)
    requires d.Valid() && ColsOf(d.keys).Some?
    requires forall i :: 0 <= i < |d.keys| ==> Free(d.keys[i], '\n')
    ensures forall j :: 0 <= j < |Distinct(RowsOf(d.keys))| ==> Free(Distinct(RowsOf(d.keys))[j], '\n')
    ensures forall j :: 0 <= j < |OrderColumns(Distinct(ColsOf(d.keys).value))| ==>
              Free(OrderColumns(Distinct(ColsOf(d.keys).value))[j], '\n')
  {
    var cs := ColsOf(d.keys).value;
    var rows := Distinct(RowsOf(d.keys));
    var cols := OrderColumns(Distinct(cs));
    forall i | 0 <= i < |d.keys| ensures Free(RowsOf(d.keys)[i], '\n') && Free(cs[i], '\n') {
      SplitPartsFree(d.keys[i], ' ', '\n');
    }
    forall j | 0 <= j < |rows| ensures Free(rows[j], '\n') {
      assert rows[j] in RowsOf(d.keys);
    }
    OrderColumnsSorted(Distinct(cs));
    forall j | 0 <= j < |cols| ensures Free(cols[j], '\n') {
      assert cols[j] in multiset(cols);
      assert cols[j] in Distinct(cs);
    }
  }

  /** A row line of cells holds no newline when its row name holds none. */
  lemma RowLineFree(values: map<string, Scalar>, r: string, cols: seq<string>)
    requires Free(r, '\n')
    ensures Free(RowLine(values, r, cols), '\n')
  {
    var cells := RowCells(values, r, cols);
    forall j | 0 <= j < |cells| ensures Free(cells[j], '\n') {
      CellTextFree(values, r + " " + cols[j]);
    }
    SpacedCellsFree(cells, values);
  }

  /** The text of a table read back line by line: the header with the
      columns, one line per row, and the closing `;`. */
  lemma TableText(name: string, scalar: Option<Scalar>, d: Dict, repr: real -> string)
    requires d.Valid() && |d.keys| > 0 && ColsOf(d.keys).Some?
    requires Free(name, '\n')
    requires forall i :: 0 <= i < |d.keys| ==> Free(d.keys[i], '\n')
    ensures var rows := Distinct(RowsOf(d.keys));
            var cols := OrderColumns(Distinct(ColsOf(d.keys).value));
            Split(ParamText(name, 2, scalar, d, repr).text, '\n') ==
              ["param " + name + " : " + Join(" ", cols) + " :="] + RowLines(d.values, rows, cols) + [";", "", ""]
  {
    var rows := Distinct(RowsOf(d.keys));
    var cols := OrderColumns(Distinct(ColsOf(d.keys).value));
    var lines := RowLines(d.values, rows, cols);
    var header := "param " + name + " : " + Join(" ", cols) + " :=";
    ColumnsFree(d);
    RowLinesFree(d.values, rows, cols);
    HeaderFree(name, cols);
    TableShape(name, scalar, d, repr, rows, cols, header);
    BodyLines(header, lines, ";");
  }

  lemma RowLinesFree(values: map<string, Scalar>, rows: seq<string>, cols: seq<string>)
    requires forall j :: 0 <= j < |rows| ==> Free(rows[j], '\n')
    ensures forall line :: line in RowLines(values, rows, cols) ==> Free(line, '\n')
  {
    var lines := RowLines(values, rows, cols);
    forall line | line in lines ensures Free(line, '\n') {
      var i :| 0 <= i < |rows| && lines[i] == line;
      RowLineFree(values, rows[i], cols);
    }
  }

  lemma HeaderFree(name: string, cols: seq<string>)
    requires Free(name, '\n')
    requires forall j :: 0 <= j < |cols| ==> Free(cols[j], '\n')
    ensures Free("param " + name + " : " + Join(" ", cols) + " :=", '\n')
  {
    assert Free(Join(" ", cols), '\n') by {
      JoinFree(cols, '\n');
    }
    HeaderWordsFree();
    FreeAppend5("param ", name, " : ", Join(" ", cols), " :=", '\n');
  }

  lemma HeaderWordsFree()
    ensures Free("param ", '\n') && Free(" : ", '\n') && Free(" :=", '\n')
  {
  }

  lemma FreeAppend5(a: string, b: string, c: string, d: string, e: string, ch: char)
    requires Free(a, ch) && Free(b, ch) && Free(c, ch) && Free(d, ch) && Free(e, ch)
    ensures Free(a + b + c + d + e, ch)
  {
    FreeAppend(a, b, ch);
    FreeAppend(a + b, c, ch);
    FreeAppend(a + b + c, d, ch);
    FreeAppend(a + b + c + d, e, ch);
  }

  lemma {:induction false} SpacedCellsFree(cells: seq<string>, values: map<string, Scalar>)
    requires forall j :: 0 <= j < |cells| ==> Free(cells[j], '\n')
    ensures Free(SpacedCells(cells), '\n')
  {
    if cells != [] {
      SpacedCellsFree(cells[1..], values);
    }
  }

  /** The parts of a split hold no character the whole did not hold. */
  lemma {:induction false} SplitPartsFree(s: string, sep: char, c: char)
    requires Free(s, c)
    ensures forall i :: 0 <= i < |Split(s, sep)| ==> Free(Split(s, sep)[i], c)
  {
    if s != [] {
      SplitPartsFree(s[1..], sep, c);
    }
  }

  // ================================================================ the network input

  /** The sets of the network input, with their dimensions: timesteps,
      nodes, technologies, and the (technology, node) pairs. */
  const SET_NAMES: seq<string> := ["T", "N", "H", "U"]
  const SET_DIMS: seq<nat> := [1, 1, 1, 2]

  /** The parameters of the network input in declaration order, and the
      sets each one is indexed by. */
  const PARAM_NAMES: seq<string> :=
    ["capacity_cost", "operational_cost", "operational_lifetime", "demand_profile",
     "yearly_demand", "is_consumer", "is_producer", "is_storage", "record_curtailment",
     "availability_profile", "installed_capacity", "energy_capacity"]
  const PARAM_SETS: seq<seq<string>> :=
    [["H"], ["H"], ["H"], ["H", "T"], ["H"], ["H"], ["H"], ["H"], ["H"],
     ["H", "T"], ["H", "N"], ["H", "N"]]

  /** The three groups of parameters that the scenario list fills. */
  const BY_TECH: seq<string> := ["H"]
  const BY_TECH_TIME: seq<string> := ["H", "T"]
  const BY_TECH_NODE: seq<string> := ["H", "N"]

  /** The index of the first set named `name` (`get_set`). */
  function SetIndex(ss: seq<ModelSet>, name: string): (r: Option<nat>)
    ensures r.Some? ==> r.value < |ss| && ss[r.value].name == name && forall j :: 0 <= j < r.value ==> ss[j].name != name
    ensures r.None? ==> forall j :: 0 <= j < |ss| ==> ss[j].name != name
  {
    if ss == [] then None
    else if ss[0].name == name then Some(0)
    else match SetIndex(ss[1..], name)
      case None => None
      case Some(j) => Some(j + 1)
  }

  /** The index of the first parameter named `name` (`get_param`). */
  function ParamIndex(ps: seq<ModelParam>, name: string): (r: Option<nat>)
    ensures r.Some? ==> r.value < |ps| && ps[r.value].name == name && forall j :: 0 <= j < r.value ==> ps[j].name != name
    ensures r.None? ==> forall j :: 0 <= j < |ps| ==> ps[j].name != name
  {
    if ps == [] then None
    else if ps[0].name == name then Some(0)
    else match ParamIndex(ps[1..], name)
      case None => None
      case Some(j) => Some(j + 1)
  }

  /** The names of the parameters indexed by exactly the sets `group`, in
      declaration order. */
  function NamesIndexedBy(ps: seq<ModelParam>, group: seq<string>): (r: seq<string>)
    ensures forall n :: n in r <==> exists q :: 0 <= q < |ps| && ps[q].name == n && ps[q].setNames == group
    ensures (forall a, b :: 0 <= a < b < |ps| ==> ps[a].name != ps[b].name) ==>
              forall a, b :: 0 <= a < b < |r| ==> r[a] != r[b]
  {
    if ps == [] then []
    else
      var init := NamesIndexedBy(ps[..|ps| - 1], group);
      var last := ps[|ps| - 1];
      assert forall q :: 0 <= q < |ps| - 1 ==> ps[..|ps| - 1][q] == ps[q];
      if last.setNames == group then
        assert (forall a, b :: 0 <= a < b < |ps| ==> ps[a].name != ps[b].name) ==> last.name !in init;
        init + [last.name]
      else init
  }

  /** What `model[key]` yields. */
  datatype Item = SetItem(s: ModelSet) | ParamItem(p: ModelParam)

  /** One value written into a parameter: the key string and the value. */
  datatype Entry = Entry(key: string, value: Scalar)

  /** `d[k] = v` for each entry in turn. */
  function ApplyAll(d: Dict, es: seq<Entry>): (r: Dict)
    ensures d.Valid() ==> r.Valid()
  {
    if es == [] then d
    else
      var last := es[|es| - 1];
      ApplyAll(d, es[..|es| - 1]).Put(last.key, last.value)
  }

  /** The values of a profile under the keys `tech 1`, `tech 2`, ... */
  function ProfileEntries(tech: string, profile: seq<real>): (r: seq<Entry>)
    ensures |r| == |profile|
    ensures forall k :: 0 <= k < |profile| ==> r[k] == Entry(tech + " " + IntToString(k + 1), Num(profile[k]))
  {
    if profile == [] then []
    else
      var n := |profile|;
      ProfileEntries(tech, profile[..n - 1]) + [Entry(tech + " " + IntToString(n), Num(profile[n - 1]))]
  }

  /** The values one entity writes into the parameter `name` indexed by
      `group`: an attribute of the same name, keyed by the technology; a
      profile, keyed by the technology and the 1-based timestep; or a value
      keyed by the technology and the node. The marker writes none. */
  function ItemEntries(e: Entity, name: string, group: seq<string>): seq<Entry> {
    if e.Timesteps? then []
    else
      match GetAttr(e, name)
      case None => []
      case Some(a) =>
        if group == BY_TECH && a.ScalarAttr? then [Entry(e.technology, a.s)]
        else if group == BY_TECH_TIME && a.ProfileAttr? then ProfileEntries(e.technology, a.p)
        else if group == BY_TECH_NODE && a.ScalarAttr? then [Entry(e.technology + " " + e.node_id, a.s)]
        else []
  }

  /** The values a whole scenario list writes into one parameter, in order. */
  function ParamEntries(items: seq<Entity>, name: string, group: seq<string>): seq<Entry> {
    if items == [] then []
    else
      ParamEntries(items[..|items| - 1], name, group) + ItemEntries(items[|items| - 1], name, group)
  }

  /** The parameter dictionary after every item of the list has written
      its values in turn. */
  function Filled(d: Dict, items: seq<Entity>, name: string, group: seq<string>): (r: Dict)
  {
    if items == [] then d
    else ApplyAll(Filled(d, items[..|items| - 1], name, group), ItemEntries(items[|items| - 1], name, group))
  }

  lemma FilledStep(d: Dict, items: seq<Entity>, i: nat, name: string, group: seq<string>)
    requires i < |items|
    ensures Filled(d, items[..i + 1], name, group) == ApplyAll(Filled(d, items[..i], name, group), ItemEntries(items[i], name, group))
  {
    TakeSnoc(items, i);
  }

  /** The elements of the timestep set: 1 up to `n`. */
  function Steps(n: nat): seq<seq<Atom>>
  {
    seq(n, k requires 0 <= k < n => [Index(k + 1)])
  }

  predicate HasMarker(items: seq<Entity>) {
    exists i :: 0 <= i < |items| && items[i].Timesteps?
  }

  /** The node, technology and (technology, node) elements of the entities
      of a scenario list, one per entity, in order. */
  function NodeElems(items: seq<Entity>): seq<seq<Atom>> {
    if items == [] then []
    else
      var e := items[|items| - 1];
      NodeElems(items[..|items| - 1]) + (if e.Timesteps? then [] else [[Word(e.node_id)]])
  }

  function TechElems(items: seq<Entity>): seq<seq<Atom>> {
    if items == [] then []
    else
      var e := items[|items| - 1];
      TechElems(items[..|items| - 1]) + (if e.Timesteps? then [] else [[Word(e.technology)]])
  }

  function PairElems(items: seq<Entity>): seq<seq<Atom>> {
    if items == [] then []
    else
      var e := items[|items| - 1];
      PairElems(items[..|items| - 1]) + (if e.Timesteps? then [] else [[Word(e.technology), Word(e.node_id)]])
  }

  /** `x` added to an ordered set. */
  function Add<T(==)>(s: seq<T>, x: T): seq<T> {
    if x in s then s else s + [x]
  }

  /** The text of the sets, in order. */
  function SetsText(ss: seq<ModelSet>): string
    reads ss
  {
    if ss == [] then ""
    else
      var last := ss[|ss| - 1];
      SetsText(ss[..|ss| - 1]) + SetText(last.name, last.dim, last.val)
  }

  /** The text of the parameters, in order, up to and including the first
      one that raises. */
  function ParamsText(ps: seq<ModelParam>, repr: real -> string): Written
    reads ps
    requires forall i :: 0 <= i < |ps| ==> ps[i].Valid()
  {
    if ps == [] then Written("", false)
    else
      var init := ParamsText(ps[..|ps| - 1], repr);
      var last := ps[|ps| - 1];
      assert last.Valid();
      if init.failed then init
      else
        var w := ParamText(last.name, last.dim, last.scalar, last.vals, repr);
        Written(init.text + w.text, w.failed)
  }

  /** The dictionaries the parameters hold. */
  ghost function DictsOf(ps: seq<ModelParam>): (r: seq<Dict>)
    reads ps
    ensures |r| == |ps| && forall q :: 0 <= q < |ps| ==> r[q] == ps[q].vals
  {
    if ps == [] then [] else DictsOf(ps[..|ps| - 1]) + [ps[|ps| - 1].vals]
  }

  /** The scalars the parameters hold. */
  ghost function ScalarsOf(ps: seq<ModelParam>): (r: seq<Option<Scalar>>)
    reads ps
    ensures |r| == |ps| && forall q :: 0 <= q < |ps| ==> r[q] == ps[q].scalar
  {
    if ps == [] then [] else ScalarsOf(ps[..|ps| - 1]) + [ps[|ps| - 1].scalar]
  }

  class OptNetworkInput {
    const sets: seq<ModelSet>
    const params: seq<ModelParam>

    /** The sets and parameters `_init_structure` declares, each object once. */
    predicate Valid() {
      && |sets| == |SET_NAMES|
      && (forall i :: 0 <= i < |sets| ==> sets[i].name == SET_NAMES[i] && sets[i].dim == SET_DIMS[i])
      && (forall i, j :: 0 <= i < j < |sets| ==> sets[i] != sets[j])
      && |params| == |PARAM_NAMES|
      && (forall q :: 0 <= q < |params| ==>
            && params[q].name == PARAM_NAMES[q] && params[q].setNames == PARAM_SETS[q]
            && params[q].dim == |PARAM_SETS[q]| && params[q].sf == 1.0)
      && (forall q, r :: 0 <= q < r < |params| ==> params[q] != params[r])
    }

    /** `_init_structure`: the four sets, then the twelve parameters over
        them, all empty. */
    constructor ()
      ensures Valid()
      ensures forall i :: 0 <= i < |sets| ==> sets[i].val == []
      ensures forall q :: 0 <= q < |params| ==> params[q].scalar == None && params[q].vals == EMPTY
    {
      var ss := NewSets();
      var ps := NewParams(ss);
      sets, params := ss, ps;
    }

    /** `__getitem__(key)`: a set of that name, else a parameter of that
        name, else the ValueError for an unknown key. */
    function GetItem(key: string): (r: Result<Item>)
      ensures SetIndex(sets, key).Some? ==> r == Success(SetItem(sets[SetIndex(sets, key).value]))
      ensures SetIndex(sets, key).None? && ParamIndex(params, key).Some? ==>
                r == Success(ParamItem(params[ParamIndex(params, key).value]))
      ensures r.Failure? <==> (forall j :: 0 <= j < |sets| ==> sets[j].name != key) &&
                              (forall q :: 0 <= q < |params| ==> params[q].name != key)
    {
      match SetIndex(sets, key)
      case Some(j) => Success(SetItem(sets[j]))
      case None =>
        match ParamIndex(params, key)
        case Some(q) => Success(ParamItem(params[q]))
        case None => Failure("key not found in the model")
    }

    /** `get_paramnames_indexed_by_set(group)`. */
    function ParamNamesIndexedBy(group: seq<string>): (r: seq<string>)
      ensures forall n :: n in r <==> exists q :: 0 <= q < |params| && params[q].name == n && params[q].setNames == group
    {
      NamesIndexedBy(params, group)
    }

    /** Each parameter is found under its own name, and no set shadows it. */
    lemma ParamLookup(q: nat)
      requires Valid() && q < |params|
      ensures ParamIndex(params, params[q].name) == Some(q)
      ensures GetItem(params[q].name) == Success(ParamItem(params[q]))
    {
      NamesDistinct();
      var r := ParamIndex(params, params[q].name);
      assert r.Some?;
    }

    /** `get_paramnames_indexed_by_set` lists the parameters of each group
        in the order `_init_structure` declares them. */
    lemma ParamGroups()
      requires Valid()
      ensures ParamNamesIndexedBy(BY_TECH) ==
                ["capacity_cost", "operational_cost", "operational_lifetime", "yearly_demand",
                 "is_consumer", "is_producer", "is_storage", "record_curtailment"]
      ensures ParamNamesIndexedBy(BY_TECH_TIME) == ["demand_profile", "availability_profile"]
      ensures ParamNamesIndexedBy(BY_TECH_NODE) == ["installed_capacity", "energy_capacity"]
    {
      NamesIndexedByDeclared(params, BY_TECH);
      NamesIndexedByDeclared(params, BY_TECH_TIME);
      NamesIndexedByDeclared(params, BY_TECH_NODE);
      DeclaredByTech();
      DeclaredByTechTime();
      DeclaredByTechNode();
    }

    lemma ParamNamesDistinct()
      requires Valid()
      ensures forall a, b :: 0 <= a < b < |params| ==> params[a].name != params[b].name
    {
      NamesDistinct();
    }

    /** `populate_from_scenario_list(scenario_list, timesteps)`. */
    method Populate(items: seq<Entity>, timesteps: seq<int>)
      requires Valid()
      modifies sets
      modifies params
      ensures Valid()
      ensures forall q :: 0 <= q < |params| ==>
                && params[q].scalar == old(params[q].scalar)
                && params[q].vals == Filled(old(params[q].vals), items, params[q].name, params[q].setNames)
      ensures sets[0].val == if HasMarker(items) then Steps(|timesteps|) else old(sets[0].val)
      ensures sets[1].val == Distinct(NodeElems(items))
      ensures sets[2].val == Distinct(TechElems(items))
      ensures sets[3].val == Distinct(PairElems(items))
    {
      ghost var dicts := DictsOf(params);
      ghost var scalars := ScalarsOf(params);
      var nodes, technologies, pairs := Collect(items, |timesteps|, dicts, scalars);
      StoreElems(nodes, technologies, pairs);
    }

    /** The loop of `populate_from_scenario_list` over the scenario list. */
    method Collect(items: seq<Entity>, n: nat, ghost dicts: seq<Dict>, ghost scalars: seq<Option<Scalar>>)
      returns (nodes: seq<seq<Atom>>, technologies: seq<seq<Atom>>, pairs: seq<seq<Atom>>)
      requires Valid() && Filling([], dicts, scalars)
      modifies sets[0], params
      ensures Progress(items, n, dicts, scalars, old(sets[0].val), nodes, technologies, pairs)
    {
      nodes, technologies, pairs := [], [], [];
      var i := 0;
      while i < |items|
        invariant 0 <= i <= |items|
        invariant Progress(items[..i], n, dicts, scalars, old(sets[0].val), nodes, technologies, pairs)
      {
        nodes, technologies, pairs := PopulateStep(items, i, n, nodes, technologies, pairs, dicts, scalars, old(sets[0].val));
        i := i + 1;
      }
      TakeAll(items, i);
    }

    /** The state of `populate_from_scenario_list` once the items `done`
        have been visited: the parameters hold what they wrote, the
        timestep set is filled once the marker was seen, and the node,
        technology and pair elements collected are the distinct ones. */
    ghost predicate Progress(done: seq<Entity>, n: nat, dicts: seq<Dict>, scalars: seq<Option<Scalar>>, steps0: seq<seq<Atom>>,
                             nodes: seq<seq<Atom>>, technologies: seq<seq<Atom>>, pairs: seq<seq<Atom>>)
      requires Valid()
      reads sets[0], params
    {
      && Filling(done, dicts, scalars)
      && sets[0].val == (if HasMarker(done) then Steps(n) else steps0)
      && nodes == Distinct(NodeElems(done))
      && technologies == Distinct(TechElems(done))
      && pairs == Distinct(PairElems(done))
    }

    /** The node, technology and pair sets take the elements collected. */
    method StoreElems(nodes: seq<seq<Atom>>, technologies: seq<seq<Atom>>, pairs: seq<seq<Atom>>)
      requires Valid()
      modifies sets[1], sets[2], sets[3]
      ensures sets[0].val == old(sets[0].val)
      ensures sets[1].val == nodes && sets[2].val == technologies && sets[3].val == pairs
    {
      sets[1].val := nodes;
      sets[2].val := technologies;
      sets[3].val := pairs;
    }

    /** Every parameter holds what the items `done` wrote into the
        dictionaries `dicts` it started from, and its scalar is as it was. */
    ghost predicate Filling(done: seq<Entity>, dicts: seq<Dict>, scalars: seq<Option<Scalar>>)
      reads params
    {
      && |dicts| == |params| && |scalars| == |params|
      && forall q :: 0 <= q < |params| ==>
           && params[q].scalar == scalars[q]
           && params[q].vals == Filled(dicts[q], done, params[q].name, params[q].setNames)
    }

    /** One pass of the loop of `populate_from_scenario_list`. */
    method PopulateStep(items: seq<Entity>, i: nat, n: nat,
                        nodes: seq<seq<Atom>>, technologies: seq<seq<Atom>>, pairs: seq<seq<Atom>>,
                        ghost dicts: seq<Dict>, ghost scalars: seq<Option<Scalar>>, ghost steps0: seq<seq<Atom>>)
      returns (nodes': seq<seq<Atom>>, technologies': seq<seq<Atom>>, pairs': seq<seq<Atom>>)
      requires Valid() && i < |items|
      requires Progress(items[..i], n, dicts, scalars, steps0, nodes, technologies, pairs)
      modifies sets[0], params
      ensures Progress(items[..i + 1], n, dicts, scalars, steps0, nodes', technologies', pairs')
    {
      var item := items[i];
      MarkerStep(items, i);
      ElemsStep(items, i);
      Visit(item, n);
      forall q | 0 <= q < |params|
        ensures params[q].vals == Filled(dicts[q], items[..i + 1], params[q].name, params[q].setNames)
      {
        FilledStep(dicts[q], items, i, params[q].name, params[q].setNames);
      }
      nodes', technologies', pairs' := nodes, technologies, pairs;
      if !item.Timesteps? {
        nodes' := Add(nodes, [Word(item.node_id)]);
        technologies' := Add(technologies, [Word(item.technology)]);
        pairs' := Add(pairs, [Word(item.technology), Word(item.node_id)]);
      }
    }

    /** `write(file)`: every set and then every parameter writes its text,
        and the first parameter that raises ends the writing. */
    method Write(repr: real -> string) returns (text: string, failed: bool)
      requires Valid() && forall q :: 0 <= q < |params| ==> params[q].Valid()
      ensures text == SetsText(sets) + ParamsText(params, repr).text
      ensures failed == ParamsText(params, repr).failed
    {
      text := WriteSets();
      var body;
      body, failed := WriteParams(repr);
      text := text + body;
    }

    method WriteSets() returns (text: string)
      ensures text == SetsText(sets)
    {
      text := "";
      var i := 0;
      while i < |sets|
        invariant 0 <= i <= |sets| && text == SetsText(sets[..i])
      {
        var t := sets[i].Write();
        TakeSnoc(sets, i);
        text := text + t;
        i := i + 1;
      }
      TakeAll(sets, i);
    }

    method WriteParams(repr: real -> string) returns (text: string, failed: bool)
      requires forall q :: 0 <= q < |params| ==> params[q].Valid()
      ensures Written(text, failed) == ParamsText(params, repr)
    {
      text, failed := "", false;
      var q := 0;
      while q < |params| && !failed
        invariant 0 <= q <= |params|
        invariant Written(text, failed) == ParamsText(params[..q], repr)
      {
        var t, f := params[q].Write(repr);
        TakeSnoc(params, q);
        text, failed := text + t, f;
        q := q + 1;
      }
      ParamsTextAfterFailure(params, q, repr);
    }

    /** One item of the scenario list: the marker sets the timesteps; an
        entity fills the by-technology, the by-technology-and-timestep and
        the by-technology-and-node parameters in turn. */
    method Visit(e: Entity, n: nat)
      requires Valid()
      modifies sets[0], params
      ensures Valid()
      ensures sets[0].val == if e.Timesteps? then Steps(n) else old(sets[0].val)
      ensures forall q :: 0 <= q < |params| ==>
                && params[q].scalar == old(params[q].scalar)
                && params[q].vals == ApplyAll(old(params[q].vals), ItemEntries(e, params[q].name, params[q].setNames))
    {
      if e.Timesteps? {
        sets[0].val := Steps(n);
        return;
      }
      AddGroup(e, BY_TECH);
      AddGroup(e, BY_TECH_TIME);
      AddGroup(e, BY_TECH_NODE);
      forall q | 0 <= q < |params|
        ensures params[q].setNames == BY_TECH || params[q].setNames == BY_TECH_TIME || params[q].setNames == BY_TECH_NODE
      {
        assert params[q].setNames == PARAM_SETS[q];
      }
    }

    /** The loop over `get_paramnames_indexed_by_set(group)` for one entity. */
    method AddGroup(e: Entity, group: seq<string>)
      requires Valid() && !e.Timesteps?
      requires group == BY_TECH || group == BY_TECH_TIME || group == BY_TECH_NODE
      modifies params
      ensures Valid()
      ensures forall q :: 0 <= q < |params| ==>
                && params[q].scalar == old(params[q].scalar)
                && params[q].vals == if params[q].setNames == group
                                     then ApplyAll(old(params[q].vals), ItemEntries(e, params[q].name, group))
                                     else old(params[q].vals)
    {
      ghost var dicts := DictsOf(params);
      ghost var scalars := ScalarsOf(params);
      var pnames := ParamNamesIndexedBy(group);
      var j := 0;
      while j < |pnames|
        invariant 0 <= j <= |pnames|
        invariant GroupProgress(pnames[..j], e, group, dicts, scalars)
      {
        AddNamed(e, group, pnames, j, dicts, scalars);
        j := j + 1;
      }
      TakeAll(pnames, j);
      GroupMembers(group);
    }

    /** Every parameter named in `done` has the entity's values of that
        name added to the dictionary it started from; the others are as
        they were. */
    ghost predicate GroupProgress(done: seq<string>, e: Entity, group: seq<string>, dicts: seq<Dict>, scalars: seq<Option<Scalar>>)
      reads params
    {
      && |dicts| == |params| && |scalars| == |params|
      && forall q :: 0 <= q < |params| ==>
           && params[q].scalar == scalars[q]
           && params[q].vals == if params[q].name in done
                                then ApplyAll(dicts[q], ItemEntries(e, params[q].name, group))
                                else dicts[q]
    }

    /** A parameter is listed by `get_paramnames_indexed_by_set(group)`
        exactly when it is indexed by `group`. */
    lemma GroupMembers(group: seq<string>)
      requires Valid()
      ensures forall q :: 0 <= q < |params| ==> (params[q].name in ParamNamesIndexedBy(group) <==> params[q].setNames == group)
    {
      var pnames := ParamNamesIndexedBy(group);
      ParamNamesDistinct();
      forall q | 0 <= q < |params|
        ensures params[q].name in pnames <==> params[q].setNames == group
      {
        if params[q].name in pnames {
          var r :| 0 <= r < |params| && params[r].name == params[q].name && params[r].setNames == group;
          assert r == q;
        }
      }
    }

    /** One pass of the loop over the parameter names of a group. */
    method AddNamed(e: Entity, group: seq<string>, pnames: seq<string>, j: nat,
                    ghost dicts: seq<Dict>, ghost scalars: seq<Option<Scalar>>)
      requires Valid() && !e.Timesteps?
      requires group == BY_TECH || group == BY_TECH_TIME || group == BY_TECH_NODE
      requires pnames == ParamNamesIndexedBy(group) && j < |pnames|
      requires GroupProgress(pnames[..j], e, group, dicts, scalars)
      modifies params
      ensures GroupProgress(pnames[..j + 1], e, group, dicts, scalars)
    {
      var pname := pnames[j];
      ghost var q := LookupNamed(group, j);
      var found := GetItem(pname);
      var p := found.value.p;
      AddAttribute(p, e, pname, group, q);
      TakeSnoc(pnames, j);
      forall r | 0 <= r < |params|
        ensures params[r].scalar == scalars[r]
        ensures params[r].vals == if params[r].name in pnames[..j + 1]
                                  then ApplyAll(dicts[r], ItemEntries(e, params[r].name, group))
                                  else dicts[r]
      {
        if r != q {
          assert params[r] != p;
        }
      }
    }

    /** The `j`-th name of a group is the name of one parameter of that
        group, found under it, distinct from the earlier names and from
        every other parameter's name. */
    lemma LookupNamed(group: seq<string>, j: nat) returns (q: nat)
      requires Valid() && j < |ParamNamesIndexedBy(group)|
      ensures q < |params| && params[q].name == ParamNamesIndexedBy(group)[j] && params[q].setNames == group
      ensures GetItem(params[q].name) == Success(ParamItem(params[q]))
      ensures q < |PARAM_NAMES| && params[q].name == PARAM_NAMES[q] && group == PARAM_SETS[q]
      ensures params[q].sf == 1.0 && params[q].dim == |group|
      ensures ParamNamesIndexedBy(group)[j] !in ParamNamesIndexedBy(group)[..j]
      ensures forall r :: 0 <= r < |params| && r != q ==> params[r] != params[q] && params[r].name != params[q].name
    {
      var pnames := ParamNamesIndexedBy(group);
      ParamNamesDistinct();
      assert pnames[j] in pnames;
      q :| 0 <= q < |params| && params[q].name == pnames[j] && params[q].setNames == group;
      ParamLookup(q);
    }
  }

  /** `if hasattr(item, pname)`: the attribute's values added to the
      parameter `p` named `pname`, keyed as its group demands. */
  method AddAttribute(p: ModelParam, e: Entity, pname: string, group: seq<string>, ghost q: nat)
    requires p.name == pname && p.sf == 1.0 && !e.Timesteps?
    requires q < |PARAM_NAMES| && pname == PARAM_NAMES[q] && group == PARAM_SETS[q]
    requires group == BY_TECH || group == BY_TECH_TIME || group == BY_TECH_NODE
    requires p.dim == |group|
    modifies p
    ensures p.scalar == old(p.scalar)
    ensures p.vals == ApplyAll(old(p.vals), ItemEntries(e, pname, group))
  {
    if group == BY_TECH {
      AddByTech(p, e, pname, q);
    } else if group == BY_TECH_TIME {
      AddByTechTime(p, e, pname, q);
    } else {
      AddByTechNode(p, e, pname, q);
    }
  }

  method AddByTech(p: ModelParam, e: Entity, pname: string, ghost q: nat)
    requires p.name == pname && p.sf == 1.0 && !e.Timesteps?
    requires q < |PARAM_NAMES| && pname == PARAM_NAMES[q] && PARAM_SETS[q] == BY_TECH && p.dim == 1
    modifies p
    ensures p.scalar == old(p.scalar)
    ensures p.vals == ApplyAll(old(p.vals), ItemEntries(e, pname, BY_TECH))
  {
    var attr := GetAttr(e, pname);
    ItemEntriesOf(e, pname, BY_TECH, attr);
    if attr.Some? {
      AttrKind(e, q);
      var ok := p.AddValue(attr.value.s, Single(Word(e.technology)));
      assert KeyString([Word(e.technology)]) == e.technology;
      OneEntry(old(p.vals), Entry(e.technology, attr.value.s));
    }
  }

  method AddByTechTime(p: ModelParam, e: Entity, pname: string, ghost q: nat)
    requires p.name == pname && p.sf == 1.0 && !e.Timesteps?
    requires q < |PARAM_NAMES| && pname == PARAM_NAMES[q] && PARAM_SETS[q] == BY_TECH_TIME && p.dim == 2
    modifies p
    ensures p.scalar == old(p.scalar)
    ensures p.vals == ApplyAll(old(p.vals), ItemEntries(e, pname, BY_TECH_TIME))
  {
    var attr := GetAttr(e, pname);
    ItemEntriesOf(e, pname, BY_TECH_TIME, attr);
    if attr.Some? {
      AttrKind(e, q);
      AddProfile(p, e.technology, attr.value.p);
    }
  }

  method AddByTechNode(p: ModelParam, e: Entity, pname: string, ghost q: nat)
    requires p.name == pname && p.sf == 1.0 && !e.Timesteps?
    requires q < |PARAM_NAMES| && pname == PARAM_NAMES[q] && PARAM_SETS[q] == BY_TECH_NODE && p.dim == 2
    modifies p
    ensures p.scalar == old(p.scalar)
    ensures p.vals == ApplyAll(old(p.vals), ItemEntries(e, pname, BY_TECH_NODE))
  {
    var attr := GetAttr(e, pname);
    ItemEntriesOf(e, pname, BY_TECH_NODE, attr);
    if attr.Some? {
      AttrKind(e, q);
      var ok := p.AddValue(attr.value.s, Many([Word(e.technology), Word(e.node_id)]));
      JoinTwo(e.technology, e.node_id);
      assert AtomTexts([Word(e.technology), Word(e.node_id)]) == [e.technology, e.node_id];
      OneEntry(old(p.vals), Entry(e.technology + " " + e.node_id, attr.value.s));
    }
  }

  lemma ItemEntriesOf(e: Entity, name: string, group: seq<string>, a: Option<Attribute>)
    requires !e.Timesteps? && a == GetAttr(e, name)
    ensures a.None? ==> ItemEntries(e, name, group) == []
    ensures a.Some? && group == BY_TECH && a.value.ScalarAttr? ==> ItemEntries(e, name, group) == [Entry(e.technology, a.value.s)]
    ensures a.Some? && group == BY_TECH_TIME && a.value.ProfileAttr? ==> ItemEntries(e, name, group) == ProfileEntries(e.technology, a.value.p)
    ensures a.Some? && group == BY_TECH_NODE && a.value.ScalarAttr? ==>
              ItemEntries(e, name, group) == [Entry(e.technology + " " + e.node_id, a.value.s)]
  {
  }


  /** The `add_set` calls of `_init_structure`. */
  method NewSets() returns (ss: seq<ModelSet>)
    ensures |ss| == |SET_NAMES|
    ensures forall j :: 0 <= j < |ss| ==> ss[j].name == SET_NAMES[j] && ss[j].dim == SET_DIMS[j] && ss[j].val == []
    ensures forall j, k :: 0 <= j < k < |ss| ==> ss[j] != ss[k]
  {
    ss := [];
    var i := 0;
    while i < |SET_NAMES|
      invariant 0 <= i <= |SET_NAMES| && |ss| == i
      invariant forall j :: 0 <= j < i ==> ss[j].name == SET_NAMES[j] && ss[j].dim == SET_DIMS[j] && ss[j].val == []
      invariant forall j, k :: 0 <= j < k < i ==> ss[j] != ss[k]
    {
      var s := new ModelSet(SET_NAMES[i], SET_DIMS[i]);
      ss := ss + [s];
      i := i + 1;
    }
  }

  /** The `add_param` calls of `_init_structure`, each over the sets it
      names. */
  method NewParams(ss: seq<ModelSet>) returns (ps: seq<ModelParam>)
    requires |ss| == |SET_NAMES| && forall j :: 0 <= j < |ss| ==> ss[j].name == SET_NAMES[j] && ss[j].dim == SET_DIMS[j]
    ensures |ps| == |PARAM_NAMES|
    ensures forall j :: 0 <= j < |ps| ==>
              && ps[j].name == PARAM_NAMES[j] && ps[j].setNames == PARAM_SETS[j]
              && ps[j].dim == |PARAM_SETS[j]| && ps[j].sf == 1.0
              && ps[j].scalar == None && ps[j].vals == EMPTY && ps[j].Valid()
    ensures forall j, k :: 0 <= j < k < |ps| ==> ps[j] != ps[k]
  {
    ps := [];
    var q := 0;
    while q < |PARAM_NAMES|
      invariant 0 <= q <= |PARAM_NAMES| && |ps| == q && Declared(ps)
    {
      var p := NewParam(ss, q);
      DeclaredSnoc(ps, p);
      ps := ps + [p];
      q := q + 1;
    }
  }

  /** The first `|ps|` parameters, as `add_param` creates them: distinct
      objects, each with its declared name and sets and still empty. */
  ghost predicate Declared(ps: seq<ModelParam>)
    reads ps
  {
    && |ps| <= |PARAM_NAMES|
    && (forall j :: 0 <= j < |ps| ==>
          && ps[j].name == PARAM_NAMES[j] && ps[j].setNames == PARAM_SETS[j]
          && ps[j].dim == |PARAM_SETS[j]| && ps[j].sf == 1.0
          && ps[j].scalar == None && ps[j].vals == EMPTY && ps[j].Valid())
    && (forall j, k :: 0 <= j < k < |ps| ==> ps[j] != ps[k])
  }

  /** A new parameter declared next keeps the list as declared. */
  lemma DeclaredSnoc(ps: seq<ModelParam>, p: ModelParam)
    requires Declared(ps) && |ps| < |PARAM_NAMES| && p !in ps
    requires p.name == PARAM_NAMES[|ps|] && p.setNames == PARAM_SETS[|ps|] && p.dim == |PARAM_SETS[|ps|]| && p.sf == 1.0
    requires p.scalar == None && p.vals == EMPTY && p.Valid()
    ensures Declared(ps + [p])
  {
    var ps' := ps + [p];
    assert forall j :: 0 <= j < |ps| ==> ps'[j] == ps[j];
  }

  /** `add_param` of the parameter declared at position `q`. */
  method NewParam(ss: seq<ModelSet>, q: nat) returns (p: ModelParam)
    requires |ss| == |SET_NAMES| && forall j :: 0 <= j < |ss| ==> ss[j].name == SET_NAMES[j] && ss[j].dim == SET_DIMS[j]
    requires q < |PARAM_NAMES|
    ensures fresh(p)
    ensures p.name == PARAM_NAMES[q] && p.setNames == PARAM_SETS[q] && p.dim == |PARAM_SETS[q]| && p.sf == 1.0
    ensures p.scalar == None && p.vals == EMPTY && p.Valid()
  {
    assert forall k :: 0 <= k < |PARAM_SETS[q]| ==> PARAM_SETS[q][k] in ["T", "N", "H"];
    var setList := ResolveSets(ss, PARAM_SETS[q]);
    p := new ModelParam(PARAM_NAMES[q], setList, 1.0);
  }

  /** Each of "T", "N" and "H" names one of the network's sets, of dimension 1. */
  lemma IndexedSet(ss: seq<ModelSet>, name: string)
    requires |ss| == |SET_NAMES| && forall j :: 0 <= j < |ss| ==> ss[j].name == SET_NAMES[j] && ss[j].dim == SET_DIMS[j]
    requires name in ["T", "N", "H"]
    ensures SetIndex(ss, name).Some? && ss[SetIndex(ss, name).value].dim == 1
  {
    assert ss[0].name == "T" && ss[1].name == "N" && ss[2].name == "H" && ss[3].name == "U";
  }

  /** One set more adds its name and its dimension. */
  lemma SetsSnoc(r: seq<ModelSet>, s: ModelSet)
    ensures SetNames(r + [s]) == SetNames(r) + [s.name]
    ensures TotalDim(r + [s]) == TotalDim(r) + s.dim
  {
    assert (r + [s])[..|r|] == r;
  }

  /** The set objects a parameter is declared over, looked up by name as
      `self["H"]` does. */
  method ResolveSets(ss: seq<ModelSet>, names: seq<string>) returns (r: seq<ModelSet>)
    requires |ss| == |SET_NAMES| && forall j :: 0 <= j < |ss| ==> ss[j].name == SET_NAMES[j] && ss[j].dim == SET_DIMS[j]
    requires forall k :: 0 <= k < |names| ==> names[k] in ["T", "N", "H"]
    ensures SetNames(r) == names && TotalDim(r) == |names|
  {
    r := [];
    var k := 0;
    while k < |names|
      invariant 0 <= k <= |names| && SetNames(r) == names[..k] && TotalDim(r) == k
    {
      var j := SetIndex(ss, names[k]);
      IndexedSet(ss, names[k]);
      SetsSnoc(r, ss[j.value]);
      r := r + [ss[j.value]];
      TakeSnoc(names, k);
      k := k + 1;
    }
    TakeAll(names, k);
  }

  /** The profile loop, `add_value(float(value), (tech, t + 1))` for each
      element of the profile. */
  method AddProfile(p: ModelParam, tech: string, profile: seq<real>)
    requires p.dim == 2 && p.sf == 1.0
    modifies p
    ensures p.scalar == old(p.scalar)
    ensures p.vals == ApplyAll(old(p.vals), ProfileEntries(tech, profile))
  {
    var k := 0;
    while k < |profile|
      invariant 0 <= k <= |profile| && p.scalar == old(p.scalar)
      invariant p.vals == ApplyAll(old(p.vals), ProfileEntries(tech, profile[..k]))
    {
      ghost var es := ProfileEntries(tech, profile[..k]);
      var ok := p.AddValue(Num(profile[k]), Many([Word(tech), Index(k + 1)]));
      assert AtomTexts([Word(tech), Index(k + 1)]) == [tech, IntToString(k + 1)];
      JoinTwo(tech, IntToString(k + 1));
      TakeSnoc(profile, k);
      var entry := Entry(tech + " " + IntToString(k + 1), Num(profile[k]));
      assert ProfileEntries(tech, profile[..k + 1]) == es + [entry];
      assert (es + [entry])[..|es|] == es;
      k := k + 1;
    }
    TakeAll(profile, k);
  }

  /** Filling keeps a dictionary well formed. */
  lemma {:induction false} FilledValid(d: Dict, items: seq<Entity>, name: string, group: seq<string>)
    requires d.Valid()
    ensures Filled(d, items, name, group).Valid()
  {
    if items != [] {
      FilledValid(d, items[..|items| - 1], name, group);
    }
  }

  /** Filling item by item writes the values of the whole list in order. */
  lemma {:induction false} FilledEntries(d: Dict, items: seq<Entity>, name: string, group: seq<string>)
    ensures Filled(d, items, name, group) == ApplyAll(d, ParamEntries(items, name, group))
  {
    if items != [] {
      var init := items[..|items| - 1];
      FilledEntries(d, init, name, group);
      ApplyAllAppend(d, ParamEntries(init, name, group), ItemEntries(items[|items| - 1], name, group));
    }
  }

  /** Adding an element to the ordered set of what came before gives the
      ordered set of the longer list. */
  lemma DistinctSnoc<T(!new)>(xs: seq<T>, x: T)
    ensures Distinct(xs + [x]) == Add(Distinct(xs), x)
  {
    assert (xs + [x])[..|xs|] == xs;
  }

  lemma ElemsStep(items: seq<Entity>, i: nat)
    requires i < |items|
    ensures var e := items[i];
            Distinct(NodeElems(items[..i + 1])) ==
              (if e.Timesteps? then Distinct(NodeElems(items[..i])) else Add(Distinct(NodeElems(items[..i])), [Word(e.node_id)]))
    ensures var e := items[i];
            Distinct(TechElems(items[..i + 1])) ==
              (if e.Timesteps? then Distinct(TechElems(items[..i])) else Add(Distinct(TechElems(items[..i])), [Word(e.technology)]))
    ensures var e := items[i];
            Distinct(PairElems(items[..i + 1])) ==
              (if e.Timesteps? then Distinct(PairElems(items[..i]))
               else Add(Distinct(PairElems(items[..i])), [Word(e.technology), Word(e.node_id)]))
  {
    var e := items[i];
    TakeSnoc(items, i);
    if !e.Timesteps? {
      DistinctSnoc(NodeElems(items[..i]), [Word(e.node_id)]);
      DistinctSnoc(TechElems(items[..i]), [Word(e.technology)]);
      DistinctSnoc(PairElems(items[..i]), [Word(e.technology), Word(e.node_id)]);
    } else {
      assert NodeElems(items[..i + 1]) == NodeElems(items[..i]);
      assert TechElems(items[..i + 1]) == TechElems(items[..i]);
      assert PairElems(items[..i + 1]) == PairElems(items[..i]);
    }
  }

  lemma OneEntry(d: Dict, x: Entry)
    ensures ApplyAll(d, [x]) == d.Put(x.key, x.value)
  {
    assert [x][..0] == [];
  }

  lemma {:induction false} ApplyAllAppend(d: Dict, a: seq<Entry>, b: seq<Entry>)
    ensures ApplyAll(d, a + b) == ApplyAll(ApplyAll(d, a), b)
    decreases |b|
  {
    if b == [] {
      assert a + b == a;
    } else {
      var n := |b|;
      assert (a + b)[..|a + b| - 1] == a + b[..n - 1];
      ApplyAllAppend(d, a, b[..n - 1]);
    }
  }

  /** Once a parameter raises, no later parameter writes anything. */
  lemma {:induction false} ParamsTextAfterFailure(ps: seq<ModelParam>, n: nat, repr: real -> string)
    requires n <= |ps| && forall i :: 0 <= i < |ps| ==> ps[i].Valid()
    requires n < |ps| ==> ParamsText(ps[..n], repr).failed
    ensures ParamsText(ps, repr) == ParamsText(ps[..n], repr)
    decreases |ps|
  {
    if n < |ps| {
      var init := ps[..|ps| - 1];
      assert init[..n] == ps[..n];
      ParamsTextAfterFailure(init, n, repr);
    } else {
      TakeAll(ps, n);
    }
  }

  /** The parameter and set names are all different. */
  lemma NamesDistinct()
    ensures forall a, b :: 0 <= a < b < |PARAM_NAMES| ==> PARAM_NAMES[a] != PARAM_NAMES[b]
    ensures forall a, b :: 0 <= a < |PARAM_NAMES| && 0 <= b < |SET_NAMES| ==> PARAM_NAMES[a] != SET_NAMES[b]
  {
  }

  /** The attribute an entity has under a parameter's name is a profile for
      the by-timestep parameters and a number for the others. */
  lemma AttrKind(e: Entity, q: nat)
    requires q < |PARAM_NAMES| && !e.Timesteps? && GetAttr(e, PARAM_NAMES[q]).Some?
    ensures PARAM_SETS[q] == BY_TECH_TIME ==> GetAttr(e, PARAM_NAMES[q]).value.ProfileAttr?
    ensures PARAM_SETS[q] != BY_TECH_TIME ==> GetAttr(e, PARAM_NAMES[q]).value.ScalarAttr?
  {
  }

  lemma MarkerStep(items: seq<Entity>, i: nat)
    requires i < |items|
    ensures HasMarker(items[..i + 1]) <==> HasMarker(items[..i]) || items[i].Timesteps?
  {
    assert items[..i + 1][i] == items[i];
    if HasMarker(items[..i]) {
      var w :| 0 <= w < i && items[..i][w].Timesteps?;
      assert items[..i + 1][w] == items[..i][w];
    }
    if HasMarker(items[..i + 1]) && !items[i].Timesteps? {
      var w :| 0 <= w < i + 1 && items[..i + 1][w].Timesteps?;
      assert items[..i][w] == items[..i + 1][w];
    }
  }

  // ================================================================ what populate stores

  /** The value of the last entry written under key `k`, if any. */
  function LastWrite(es: seq<Entry>, k: string): Option<Scalar> {
    if es == [] then None
    else if es[|es| - 1].key == k then Some(es[|es| - 1].value)
    else LastWrite(es[..|es| - 1], k)
  }

  /** Writing entries in turn: a key holds the value its last entry wrote
      (later writes overwrite earlier ones), a key no entry wrote keeps the
      value it had, and a key is present exactly when it was or was
      written. */
  lemma {:induction false} ApplyAllValues(d: Dict, es: seq<Entry>, k: string)
    ensures k in ApplyAll(d, es).values <==> k in d.values || LastWrite(es, k).Some?
    ensures LastWrite(es, k).Some? ==> ApplyAll(d, es).values[k] == LastWrite(es, k).value
    ensures LastWrite(es, k).None? && k in d.values ==> ApplyAll(d, es).values[k] == d.values[k]
  {
    if es != [] {
      ApplyAllValues(d, es[..|es| - 1], k);
    }
  }

  /** Keys already present keep their places; new keys go after them. */
  lemma {:induction false} ApplyAllKeys(d: Dict, es: seq<Entry>)
    ensures |d.keys| <= |ApplyAll(d, es).keys|
    ensures ApplyAll(d, es).keys[..|d.keys|] == d.keys
  {
    if es != [] {
      ApplyAllKeys(d, es[..|es| - 1]);
      var before := ApplyAll(d, es[..|es| - 1]).keys;
      var after := ApplyAll(d, es).keys;
      assert after == before || after == before + [es[|es| - 1].key];
      assert after[..|d.keys|] == before[..|d.keys|];
    }
  }

  /** A later list of entries overrides an earlier one. */
  lemma {:induction false} LastWriteAppend(a: seq<Entry>, b: seq<Entry>, k: string)
    ensures LastWrite(a + b, k) == if LastWrite(b, k).Some? then LastWrite(b, k) else LastWrite(a, k)
    decreases |b|
  {
    if b == [] {
      assert a + b == a;
    } else {
      assert (a + b)[..|a + b| - 1] == a + b[..|b| - 1];
      LastWriteAppend(a, b[..|b| - 1], k);
    }
  }

  lemma SpacedSuffix(tech: string, a: string, b: string)
    requires tech + " " + a == tech + " " + b
    ensures a == b
  {
    assert a == (tech + " " + a)[|tech| + 1..];
    assert b == (tech + " " + b)[|tech| + 1..];
  }

  /** The k-th value of a profile (counting from 0) is the one held under
      the key of the technology and the timestep `k + 1`. */
  lemma {:induction false} ProfileStored(tech: string, profile: seq<real>, k: nat)
    requires k < |profile|
    ensures LastWrite(ProfileEntries(tech, profile), tech + " " + IntToString(k + 1)) == Some(Num(profile[k]))
  {
    var n := |profile|;
    var es := ProfileEntries(tech, profile);
    if n != k + 1 {
      if tech + " " + IntToString(n) == tech + " " + IntToString(k + 1) {
        SpacedSuffix(tech, IntToString(n), IntToString(k + 1));
        ParseIntOfString(n);
        ParseIntOfString(k + 1);
      }
      assert es[..n - 1] == ProfileEntries(tech, profile[..n - 1]);
      ProfileStored(tech, profile[..n - 1], k);
    }
  }

  /** One more entity on the scenario list writes its own entries last. */
  lemma ParamEntriesSnoc(items: seq<Entity>, e: Entity, name: string, group: seq<string>, k: string)
    ensures LastWrite(ParamEntries(items + [e], name, group), k) ==
              if LastWrite(ItemEntries(e, name, group), k).Some? then LastWrite(ItemEntries(e, name, group), k)
              else LastWrite(ParamEntries(items, name, group), k)
  {
    assert (items + [e])[..|items|] == items;
    LastWriteAppend(ParamEntries(items, name, group), ItemEntries(e, name, group), k);
  }

  /** An entity without the attribute leaves the parameter as it was. */
  lemma MissingAttribute(d: Dict, items: seq<Entity>, e: Entity, name: string, group: seq<string>)
    requires GetAttr(e, name).None?
    ensures Filled(d, items + [e], name, group) == Filled(d, items, name, group)
  {
    assert (items + [e])[..|items|] == items;
  }

  /** The value a by-technology-and-node attribute leaves under its key:
      a later entity of the same technology and node overrides an earlier
      one, and an entity without the attribute adds nothing. */
  lemma NodeValueStored(items: seq<Entity>, e: Entity, name: string, s: Scalar)
    requires !e.Timesteps? && GetAttr(e, name) == Some(ScalarAttr(s))
    ensures LastWrite(ParamEntries(items + [e], name, BY_TECH_NODE), e.technology + " " + e.node_id) == Some(s)
  {
    ParamEntriesSnoc(items, e, name, BY_TECH_NODE, e.technology + " " + e.node_id);
  }

  lemma {:induction false} NodeMembers(items: seq<Entity>)
    ensures forall x :: x in NodeElems(items) <==>
              exists i :: 0 <= i < |items| && !items[i].Timesteps? && x == [Word(items[i].node_id)]
  {
    if items != [] {
      var init := items[..|items| - 1];
      NodeMembers(init);
      assert forall i :: 0 <= i < |init| ==> init[i] == items[i];
    }
  }

  lemma {:induction false} TechMembers(items: seq<Entity>)
    ensures forall x :: x in TechElems(items) <==>
              exists i :: 0 <= i < |items| && !items[i].Timesteps? && x == [Word(items[i].technology)]
  {
    if items != [] {
      var init := items[..|items| - 1];
      TechMembers(init);
      assert forall i :: 0 <= i < |init| ==> init[i] == items[i];
    }
  }

  lemma {:induction false} PairMembers(items: seq<Entity>)
    ensures forall x :: x in PairElems(items) <==>
              exists i :: 0 <= i < |items| && !items[i].Timesteps? && x == [Word(items[i].technology), Word(items[i].node_id)]
  {
    if items != [] {
      var init := items[..|items| - 1];
      PairMembers(init);
      assert forall i :: 0 <= i < |init| ==> init[i] == items[i];
    }
  }

  /** N, H and U hold exactly the node ids, technologies and (technology,
      node) pairs of the entities of the list, each once. */
  lemma ElemsMembers(items: seq<Entity>)
    ensures forall x :: x in Distinct(NodeElems(items)) <==>
              exists i :: 0 <= i < |items| && !items[i].Timesteps? && x == [Word(items[i].node_id)]
    ensures forall x :: x in Distinct(TechElems(items)) <==>
              exists i :: 0 <= i < |items| && !items[i].Timesteps? && x == [Word(items[i].technology)]
    ensures forall x :: x in Distinct(PairElems(items)) <==>
              exists i :: 0 <= i < |items| && !items[i].Timesteps? && x == [Word(items[i].technology), Word(items[i].node_id)]
  {
    NodeMembers(items);
    TechMembers(items);
    PairMembers(items);
  }

  /** Every pair of U is a technology of H with a node of N. */
  lemma PairsWithin(items: seq<Entity>)
    ensures forall x :: x in Distinct(PairElems(items)) ==>
              |x| == 2 && [x[0]] in Distinct(TechElems(items)) && [x[1]] in Distinct(NodeElems(items))
  {
    ElemsMembers(items);
    forall x | x in Distinct(PairElems(items))
      ensures |x| == 2 && [x[0]] in Distinct(TechElems(items)) && [x[1]] in Distinct(NodeElems(items))
    {
      var i :| 0 <= i < |items| && !items[i].Timesteps? && x == [Word(items[i].technology), Word(items[i].node_id)];
      assert [x[0]] == [Word(items[i].technology)];
      assert [x[1]] == [Word(items[i].node_id)];
    }
  }

  /** The names among the first `n` declared parameters indexed by `group`. */
  function DeclaredIndexedBy(n: nat, group: seq<string>): seq<string>
    requires n <= |PARAM_NAMES|
  {
    if n == 0 then []
    else DeclaredIndexedBy(n - 1, group) + (if PARAM_SETS[n - 1] == group then [PARAM_NAMES[n - 1]] else [])
  }

  lemma {:induction false} NamesIndexedByDeclared(ps: seq<ModelParam>, group: seq<string>)
    requires |ps| <= |PARAM_NAMES|
    requires forall q :: 0 <= q < |ps| ==> ps[q].name == PARAM_NAMES[q] && ps[q].setNames == PARAM_SETS[q]
    ensures NamesIndexedBy(ps, group) == DeclaredIndexedBy(|ps|, group)
  {
    if ps != [] {
      NamesIndexedByDeclared(ps[..|ps| - 1], group);
    }
  }

  /** The first six declared parameters indexed by the technologies alone. */
  lemma DeclaredByTechFirst()
    ensures DeclaredIndexedBy(6, BY_TECH) ==
              ["capacity_cost", "operational_cost", "operational_lifetime", "yearly_demand", "is_consumer"]
  {
    assert DeclaredIndexedBy(1, BY_TECH) == ["capacity_cost"];
    assert DeclaredIndexedBy(2, BY_TECH) == ["capacity_cost", "operational_cost"];
    assert DeclaredIndexedBy(3, BY_TECH) == ["capacity_cost", "operational_cost", "operational_lifetime"];
    assert DeclaredIndexedBy(4, BY_TECH) == ["capacity_cost", "operational_cost", "operational_lifetime"];
    assert DeclaredIndexedBy(5, BY_TECH) == ["capacity_cost", "operational_cost", "operational_lifetime", "yearly_demand"];
  }

  /** The parameters indexed by the technologies alone, in declaration order. */
  lemma DeclaredByTech()
    ensures DeclaredIndexedBy(12, BY_TECH) ==
              ["capacity_cost", "operational_cost", "operational_lifetime", "yearly_demand",
               "is_consumer", "is_producer", "is_storage", "record_curtailment"]
  {
    DeclaredByTechFirst();
    assert DeclaredIndexedBy(7, BY_TECH) == ["capacity_cost", "operational_cost", "operational_lifetime", "yearly_demand", "is_consumer", "is_producer"];
    assert DeclaredIndexedBy(8, BY_TECH) == ["capacity_cost", "operational_cost", "operational_lifetime", "yearly_demand", "is_consumer", "is_producer", "is_storage"];
    assert DeclaredIndexedBy(9, BY_TECH) == ["capacity_cost", "operational_cost", "operational_lifetime", "yearly_demand", "is_consumer", "is_producer", "is_storage", "record_curtailment"];
    assert DeclaredIndexedBy(10, BY_TECH) == ["capacity_cost", "operational_cost", "operational_lifetime", "yearly_demand", "is_consumer", "is_producer", "is_storage", "record_curtailment"];
    assert DeclaredIndexedBy(11, BY_TECH) == ["capacity_cost", "operational_cost", "operational_lifetime", "yearly_demand", "is_consumer", "is_producer", "is_storage", "record_curtailment"];
  }

  /** The profile parameters, indexed by technology and timestep. */
  lemma DeclaredByTechTime()
    ensures DeclaredIndexedBy(12, BY_TECH_TIME) == ["demand_profile", "availability_profile"]
  {
    assert DeclaredIndexedBy(1, BY_TECH_TIME) == [];
    assert DeclaredIndexedBy(2, BY_TECH_TIME) == [];
    assert DeclaredIndexedBy(3, BY_TECH_TIME) == [];
    assert DeclaredIndexedBy(4, BY_TECH_TIME) == ["demand_profile"];
    assert DeclaredIndexedBy(5, BY_TECH_TIME) == ["demand_profile"];
    assert DeclaredIndexedBy(6, BY_TECH_TIME) == ["demand_profile"];
    assert DeclaredIndexedBy(7, BY_TECH_TIME) == ["demand_profile"];
    assert DeclaredIndexedBy(8, BY_TECH_TIME) == ["demand_profile"];
    assert DeclaredIndexedBy(9, BY_TECH_TIME) == ["demand_profile"];
    assert DeclaredIndexedBy(10, BY_TECH_TIME) == ["demand_profile", "availability_profile"];
    assert DeclaredIndexedBy(11, BY_TECH_TIME) == ["demand_profile", "availability_profile"];
  }

  /** The parameters indexed by technology and node. */
  lemma DeclaredByTechNode()
    ensures DeclaredIndexedBy(12, BY_TECH_NODE) == ["installed_capacity", "energy_capacity"]
  {
    assert DeclaredIndexedBy(1, BY_TECH_NODE) == [];
    assert DeclaredIndexedBy(2, BY_TECH_NODE) == [];
    assert DeclaredIndexedBy(3, BY_TECH_NODE) == [];
    assert DeclaredIndexedBy(4, BY_TECH_NODE) == [];
    assert DeclaredIndexedBy(5, BY_TECH_NODE) == [];
    assert DeclaredIndexedBy(6, BY_TECH_NODE) == [];
    assert DeclaredIndexedBy(7, BY_TECH_NODE) == [];
    assert DeclaredIndexedBy(8, BY_TECH_NODE) == [];
    assert DeclaredIndexedBy(9, BY_TECH_NODE) == [];
    assert DeclaredIndexedBy(10, BY_TECH_NODE) == [];
    assert DeclaredIndexedBy(11, BY_TECH_NODE) == ["installed_capacity"];
  }
}
