/** The frontend store of simulation results: a tensor nested once per
    producer, indexed at each depth by that producer's current slider
    value, with a solved cell at every leaf. */
module DataValues {
  import opened Wrappers

  // ================================================================ the tensor

  /** A value held by the tensor: a cell object (`Leaf(Some(_))`), `null`
      or `undefined` (`Leaf(None)`), or an array of values. */
  datatype Tree<T> = Leaf(cell: Option<T>) | Node(children: seq<Tree<T>>)

  /** The message of the depth check of the get and update walks. */
  const DepthMismatch := "prodCapacities length is not equal to dataValues depth"
  /** What the JavaScript runtime throws on reading or writing through
      `null` or `undefined`. */
  const TypeError := "TypeError: cannot access a property of undefined"

  /** `null` or `undefined`, the falsy values of the tensor. */
  predicate Missing<T>(t: Tree<T>) {
    t.Leaf? && t.cell.None?
  }

  /** `pointer[k]` on a value that is not missing: an array's element,
      `undefined` past the end of the array or on a cell object (a cell
      object's own index properties are not modelled). */
  function Child<T>(t: Tree<T>, k: nat): Tree<T> {
    if t.Node? && k < |t.children| then t.children[k] else Leaf(None)
  }

  /** `pointer[k] = v` on a value that is not missing: an array's element is
      replaced, or the array grows with holes up to index `k`. On a cell
      object JavaScript sets an index property that a later `pointer[k]`
      would read back; the model does not keep cell objects' properties and
      leaves the cell as it was. */
  function SetChild<T>(t: Tree<T>, k: nat, v: Tree<T>): Tree<T> {
    match t
    case Node(cs) =>
      if k < |cs| then Node(cs[k := v]) else Node(cs + seq(k - |cs|, _ => Leaf(None)) + [v])
    case Leaf(_) => t
  }

  /** Reference definition: the value reached by following `path`, reading
      `undefined` wherever the path leaves the arrays. */
  function At<T>(t: Tree<T>, path: seq<nat>): Tree<T>
    decreases |path|
  {
    if path == [] then t else At(Child(t, path[0]), path[1..])
  }

  /** The loop of `getDataValuesCell` as a recursion: each step but the
      last checks the pointer, the last one reads the leaf. An empty path
      reads nothing. */
  function Walk<T>(t: Tree<T>, path: seq<nat>): Result<Tree<T>>
    decreases |path|
  {
    if path == [] then Success(Leaf(None))
    else if Missing(t) then Failure(if |path| == 1 then TypeError else DepthMismatch)
    else if |path| == 1 then Success(Child(t, path[0]))
    else Walk(Child(t, path[0]), path[1..])
  }

  /** The write at the end of a walk down `path`: the tensor with `v` at the
      end of the path. An intermediate pointer that is missing raises
      `missing` (the depth check of the update, a `TypeError` for the
      insertion), the last one a `TypeError`. */
  function Put<T>(t: Tree<T>, path: seq<nat>, v: Tree<T>, missing: string): Result<Tree<T>>
    decreases |path|
  {
    if path == [] then Success(t)
    else if Missing(t) then Failure(if |path| == 1 then TypeError else missing)
    else if |path| == 1 then Success(SetChild(t, path[0], v))
    else
      match Put(Child(t, path[0]), path[1..], v, missing)
      case Failure(e) => Failure(e)
      case Success(c) => Success(SetChild(t, path[0], c))
  }

  /** A fully populated tensor of the given depth: six entries in every
      array, one per slider value, and a cell object at every leaf. */
  predicate Full<T>(t: Tree<T>, depth: nat)
    decreases depth
  {
    if depth == 0 then t.Leaf? && t.cell.Some?
    else t.Node? && |t.children| == 6 && forall k :: 0 <= k < 6 ==> Full(t.children[k], depth - 1)
  }

  /** A path of slider values, each between 0 and 5. */
  predicate InRange(path: seq<nat>) {
    forall i :: 0 <= i < |path| ==> path[i] < 6
  }

  /** The first `j + 1` steps of a path are its first step and then `j` steps
      of its tail. */
  lemma AtPrefix<T>(t: Tree<T>, path: seq<nat>, j: nat)
    requires 0 < j <= |path|
    ensures At(t, path[..j]) == At(Child(t, path[0]), path[1..][..j - 1])
  {
    assert path[..j][0] == path[0];
    assert path[..j][1..] == path[1..][..j - 1];
  }

  /** The get walk raises exactly when some pointer it passes is missing,
      and otherwise reads the value at the end of the path. */
  lemma {:induction false} WalkFails<T>(t: Tree<T>, path: seq<nat>)
    decreases |path|
    ensures Walk(t, path).Failure? <==> exists j :: 0 <= j < |path| && Missing(At(t, path[..j]))
    ensures Walk(t, path).Success? && path != [] ==> Walk(t, path).value == At(t, path)
  {
    if path != [] {
      assert At(t, path[..0]) == t by {
        assert path[..0] == [];
      }
      if !Missing(t) {
        var tail := path[1..];
        if |path| == 1 {
          forall j | 0 <= j < |path|
            ensures !Missing(At(t, path[..j]))
          {
          }
        } else {
          WalkFails(Child(t, path[0]), tail);
          forall j | 0 < j < |path|
            ensures At(t, path[..j]) == At(Child(t, path[0]), tail[..j - 1])
          {
            AtPrefix(t, path, j);
          }
          if k :| 0 <= k < |tail| && Missing(At(Child(t, path[0]), tail[..k])) {
            assert Missing(At(t, path[..k + 1]));
          }
        }
      }
    }
  }

  /** On a full tensor, a path of slider values as long as the tensor is
      deep always reads a cell object. */
  lemma {:induction false} WalkFull<T>(t: Tree<T>, path: seq<nat>)
    requires path != [] && Full(t, |path|) && InRange(path)
    ensures Walk(t, path) == Success(At(t, path)) && Full(At(t, path), 0)
  {
    var c := Child(t, path[0]);
    assert c == t.children[path[0]];
    if |path| > 1 {
      WalkFull(c, path[1..]);
    }
  }

  /** Writing a cell object into a full tensor succeeds, keeps it full, and
      changes the leaf at that path and no other. */
  lemma {:induction false} PutFull<T>(t: Tree<T>, path: seq<nat>, v: Tree<T>, missing: string)
    requires path != [] && Full(t, |path|) && InRange(path) && Full(v, 0)
    ensures Put(t, path, v, missing).Success?
    ensures Full(Put(t, path, v, missing).value, |path|)
    ensures forall q :: |q| == |path| && InRange(q) ==>
              At(Put(t, path, v, missing).value, q) == if q == path then v else At(t, q)
  {
    var cs := t.children;
    var k := path[0];
    if |path| == 1 {
      var t' := Node(cs[k := v]);
      assert Put(t, path, v, missing) == Success(t');
      forall q | |q| == 1 && InRange(q)
        ensures At(t', q) == if q == path then v else At(t, q)
      {
        assert q == [q[0]];
        assert At(t', q) == Child(t', q[0]);
        assert At(t, q) == Child(t, q[0]);
      }
    } else {
      var tail := path[1..];
      PutFull(cs[k], tail, v, missing);
      var c' := Put(cs[k], tail, v, missing).value;
      var t' := Node(cs[k := c']);
      assert Put(t, path, v, missing) == Success(t');
      forall q | |q| == |path| && InRange(q)
        ensures At(t', q) == if q == path then v else At(t, q)
      {
        assert q == [q[0]] + q[1..] && path == [k] + tail;
        assert At(t', q) == At(Child(t', q[0]), q[1..]);
        assert At(t, q) == At(Child(t, q[0]), q[1..]);
      }
    }
  }

  /** After an update on a full tensor, the cell read back at the written
      path is the one written, and every other path reads what it read
      before. */
  lemma UpdateThenGet<T>(t: Tree<T>, path: seq<nat>, v: T, missing: string, q: seq<nat>)
    requires path != [] && Full(t, |path|) && InRange(path)
    requires |q| == |path| && InRange(q)
    ensures Put(t, path, Leaf(Some(v)), missing).Success?
    ensures Walk(Put(t, path, Leaf(Some(v)), missing).value, q) ==
              if q == path then Success(Leaf(Some(v))) else Walk(t, q)
  {
    PutFull(t, path, Leaf(Some(v)), missing);
    WalkFull(Put(t, path, Leaf(Some(v)), missing).value, q);
    WalkFull(t, q);
  }

  // ================================================================ capacities

  /** The slider value of every producer, in the order of the map. */
  function Values<K>(caps: seq<(K, nat)>): (vs: seq<nat>)
    ensures |vs| == |caps| && forall i :: 0 <= i < |caps| ==> vs[i] == caps[i].1
  {
    seq(|caps|, i requires 0 <= i < |caps| => caps[i].1)
  }

  /** An intermediate result of the update walk rebuilt along the arrays
      passed on the way down: the `k`-th of `spine` receives the rebuilt
      value at index `path[k]`. */
  function Lift<T>(spine: seq<Tree<T>>, path: seq<nat>, sub: Result<Tree<T>>): Result<Tree<T>>
    requires |spine| <= |path|
    decreases |spine|
  {
    if spine == [] then sub
    else
      var k := |spine| - 1;
      Lift(spine[..k], path, match sub
                             case Success(c) => Success(SetChild(spine[k], path[k], c))
                             case Failure(e) => Failure(e))
  }

  /** A failure passes through the rebuilding unchanged. */
  lemma {:induction false} LiftFailure<T>(spine: seq<Tree<T>>, path: seq<nat>, e: string)
    requires |spine| <= |path|
    ensures Lift(spine, path, Failure(e)) == Failure(e)
    decreases |spine|
  {
    if spine != [] {
      LiftFailure(spine[..|spine| - 1], path, e);
    }
  }

  /** One step down the update walk: the array passed is pushed onto the
      spine, and the rebuilt result is the same. */
  lemma LiftStep<T>(spine: seq<Tree<T>>, path: seq<nat>, p: Tree<T>, v: Tree<T>, missing: string)
    requires |spine| + 1 < |path| && !Missing(p)
    ensures Lift(spine, path, Put(p, path[|spine|..], v, missing)) ==
            Lift(spine + [p], path, Put(Child(p, path[|spine|]), path[|spine| + 1..], v, missing))
  {
    var i := |spine|;
    assert (spine + [p])[..i] == spine;
    assert path[i..][0] == path[i] && path[i..][1..] == path[i + 1..];
  }

  /** The keys of the map are pairwise distinct. */
  predicate DistinctKeys<K(==)>(caps: seq<(K, nat)>) {
    forall i, j :: 0 <= i < j < |caps| ==> caps[i].0 != caps[j].0
  }

  /** Whether `k` is a key of the map. */
  predicate HasKey<K(==)>(caps: seq<(K, nat)>, k: K) {
    exists i :: 0 <= i < |caps| && caps[i].0 == k
  }

  /** `Map.prototype.set`: the value of a present key is replaced where it
      stands; an absent key is appended. */
  function SetEntry<K(==)>(caps: seq<(K, nat)>, k: K, v: nat): seq<(K, nat)>
    decreases |caps|
  {
    if caps == [] then [(k, v)]
    else if caps[0].0 == k then [(k, v)] + caps[1..]
    else [caps[0]] + SetEntry(caps[1..], k, v)
  }

  /** Setting a present key changes its value and nothing else. */
  lemma {:induction false} SetPresent<K>(caps: seq<(K, nat)>, k: K, v: nat)
    requires DistinctKeys(caps) && HasKey(caps, k)
    ensures |SetEntry(caps, k, v)| == |caps|
    ensures forall j :: 0 <= j < |caps| ==>
              SetEntry(caps, k, v)[j] == if caps[j].0 == k then (k, v) else caps[j]
    decreases |caps|
  {
    if caps[0].0 != k {
      var i :| 0 <= i < |caps| && caps[i].0 == k;
      assert caps[1..][i - 1].0 == k;
      SetPresent(caps[1..], k, v);
    }
  }

  /** Setting an absent key appends it at the end. */
  lemma {:induction false} SetAbsent<K>(caps: seq<(K, nat)>, k: K, v: nat)
    requires !HasKey(caps, k)
    ensures SetEntry(caps, k, v) == caps + [(k, v)]
    decreases |caps|
  {
    if caps != [] {
      assert caps[0].0 != k;
      SetAbsent(caps[1..], k, v);
      assert caps == [caps[0]] + caps[1..];
    }
  }

  /** Setting a key keeps the keys distinct and makes the key present with
      the value set. */
  lemma SetKeeps<K>(caps: seq<(K, nat)>, k: K, v: nat)
    requires DistinctKeys(caps)
    ensures DistinctKeys(SetEntry(caps, k, v)) && (k, v) in SetEntry(caps, k, v)
  {
    var r := SetEntry(caps, k, v);
    if HasKey(caps, k) {
      SetPresent(caps, k, v);
      var i :| 0 <= i < |caps| && caps[i].0 == k;
      assert r[i] == (k, v);
    } else {
      SetAbsent(caps, k, v);
      assert r[|caps|] == (k, v);
    }
  }

  /** The slider values of a heatmap cell: `c` for the column producer, `r`
      for the row producer, the current value for every other producer. */
  function Path<K(==)>(caps: seq<(K, nat)>, colID: K, rowID: K, c: nat, r: nat): (p: seq<nat>)
    ensures |p| == |caps|
    ensures forall j :: 0 <= j < |caps| ==>
              p[j] == if caps[j].0 == colID then c else if caps[j].0 == rowID then r else caps[j].1
  {
    seq(|caps|, j requires 0 <= j < |caps| =>
      if caps[j].0 == colID then c else if caps[j].0 == rowID then r else caps[j].1)
  }

  /** Whether the path lies in the heatmap of `colID` and `rowID`: every
      other producer at its current value. */
  predicate Swept<K(==)>(caps: seq<(K, nat)>, colID: K, rowID: K, q: seq<nat>)
    requires |q| == |caps|
  {
    forall j :: 0 <= j < |caps| && caps[j].0 != colID && caps[j].0 != rowID ==> q[j] == caps[j].1
  }

  // ================================================================ insertion

  /** What an insertion leaves behind: the map, the tensor, and the error
      that stopped it, if one did. */
  datatype Inserted<K, T> = Inserted(caps: seq<(K, nat)>, tree: Tree<T>, error: Option<string>)

  /** `valueMatrix[col][row]`: a missing column raises, a missing row reads
      `undefined`. */
  function MatrixCell<T>(vm: seq<seq<T>>, col: nat, row: nat): Result<Tree<T>> {
    if col >= |vm| then Failure(TypeError)
    else Success(if row < |vm[col]| then Leaf(Some(vm[col][row])) else Leaf(None))
  }

  /** The inner loop of `insertDataValuesCell` from `row` on: set the row
      producer's slider, read the cell, write it at the current slider
      values. */
  function InsertRows<K(==), T>(rowID: K, vm: seq<seq<T>>, caps: seq<(K, nat)>, t: Tree<T>,
                                col: nat, row: nat): Inserted<K, T>
    decreases 6 - row
  {
    if row >= 6 then Inserted(caps, t, None)
    else
      var caps' := SetEntry(caps, rowID, row);
      match MatrixCell(vm, col, row)
      case Failure(e) => Inserted(caps', t, Some(e))
      case Success(v) =>
        match Put(t, Values(caps'), v, TypeError)
        case Failure(e) => Inserted(caps', t, Some(e))
        case Success(t') => InsertRows(rowID, vm, caps', t', col, row + 1)
  }

  /** The outer loop of `insertDataValuesCell` from `col` on: set the column
      producer's slider, then run the inner loop. */
  function InsertCols<K(==), T>(colID: K, rowID: K, vm: seq<seq<T>>, caps: seq<(K, nat)>,
                                t: Tree<T>, col: nat): Inserted<K, T>
    decreases 6 - col
  {
    if col >= 6 then Inserted(caps, t, None)
    else
      var rs := InsertRows(rowID, vm, SetEntry(caps, colID, col), t, col, 0);
      if rs.error.Some? then rs else InsertCols(colID, rowID, vm, rs.caps, rs.tree, col + 1)
  }

  /** The data of one insertion sweep over a full tensor: the two sliders,
      the matrix, the map and tensor it starts from, and where the two
      sliders stand in the map. */
  datatype Sweep<K(==), T> = Sweep(colID: K, rowID: K, vm: seq<seq<T>>, caps0: seq<(K, nat)>,
                                   t0: Tree<T>, cd: nat, rd: nat)
  {
    /** The sweep starts from a well-formed map and a full tensor, with a
        six by six matrix. */
    ghost predicate Ok() {
      && DistinctKeys(caps0) && colID != rowID
      && cd < |caps0| && caps0[cd].0 == colID && rd < |caps0| && caps0[rd].0 == rowID
      && (forall j :: 0 <= j < |caps0| && j != cd && j != rd ==> caps0[j].1 < 6)
      && Full(t0, |caps0|)
      && |vm| >= 6 && (forall c :: 0 <= c < 6 ==> |vm[c]| >= 6)
    }

    /** `caps` has the keys of the initial map, and only the two sliders'
        values may differ. */
    ghost predicate Others(caps: seq<(K, nat)>) {
      && |caps| == |caps0|
      && forall j :: 0 <= j < |caps| ==>
           caps[j].0 == caps0[j].0 && (j != cd && j != rd ==> caps[j].1 == caps0[j].1)
    }

    /** What the tensor holds at `q` once the first `k` cells of the sweep
        are written. */
    ghost function Expect(k: nat, q: seq<nat>): Tree<T>
      requires Ok() && |q| == |caps0| && InRange(q)
    {
      if Swept(caps0, colID, rowID, q) && 6 * q[cd] + q[rd] < k
      then Leaf(Some(vm[q[cd]][q[rd]]))
      else At(t0, q)
    }

    /** The state after the first `k` cells of the sweep. */
    ghost predicate Partway(caps: seq<(K, nat)>, t: Tree<T>, k: nat)
      requires Ok()
    {
      Others(caps) && Full(t, |caps0|) &&
      forall q :: |q| == |caps0| && InRange(q) ==> At(t, q) == Expect(k, q)
    }

    /** The state after the first `k` cells without an error, with the
        column slider at `c` and the row slider at `r`. */
    ghost predicate Reached(ins: Inserted<K, T>, k: nat, c: nat, r: nat)
      requires Ok()
    {
      ins.error.None? && Partway(ins.caps, ins.tree, k) && ins.caps[cd].1 == c && ins.caps[rd].1 == r
    }
  }

  /** Setting one of the two sliders changes that entry's value and nothing
      else. */
  lemma SetSlider<K, T>(s: Sweep<K, T>, caps: seq<(K, nat)>, i: nat, v: nat)
    requires s.Ok() && s.Others(caps) && (i == s.cd || i == s.rd)
    ensures s.Others(SetEntry(caps, s.caps0[i].0, v))
    ensures SetEntry(caps, s.caps0[i].0, v)[i].1 == v
    ensures forall j :: 0 <= j < |caps| && j != i ==> SetEntry(caps, s.caps0[i].0, v)[j] == caps[j]
  {
    assert caps[i].0 == s.caps0[i].0;
    SetPresent(caps, s.caps0[i].0, v);
  }

  /** A path of the heatmap is fixed by its two slider values. */
  lemma CellPath<K, T>(s: Sweep<K, T>, q: seq<nat>, c: nat, r: nat)
    requires s.Ok() && |q| == |s.caps0| && Swept(s.caps0, s.colID, s.rowID, q)
    requires q[s.cd] == c && q[s.rd] == r
    ensures q == Path(s.caps0, s.colID, s.rowID, c, r)
  {
    var p := Path(s.caps0, s.colID, s.rowID, c, r);
    forall j | 0 <= j < |q|
      ensures q[j] == p[j]
    {
    }
  }

  /** Writing cell `6 * c + r` of the sweep adds exactly the leaf at its
      path to what the tensor is expected to hold. */
  lemma ExpectStep<K, T>(s: Sweep<K, T>, c: nat, r: nat, q: seq<nat>)
    requires s.Ok() && c < 6 && r < 6 && |q| == |s.caps0| && InRange(q)
    ensures s.Expect(6 * c + r + 1, q) ==
              if q == Path(s.caps0, s.colID, s.rowID, c, r) then Leaf(Some(s.vm[c][r]))
              else s.Expect(6 * c + r, q)
  {
    var p := Path(s.caps0, s.colID, s.rowID, c, r);
    if Swept(s.caps0, s.colID, s.rowID, q) && 6 * q[s.cd] + q[s.rd] == 6 * c + r {
      CellPath(s, q, c, r);
    }
    if q == p {
      assert q[s.cd] == c && q[s.rd] == r;
    }
  }

  /** One cell of the sweep: the map then addresses the cell's path, the
      write succeeds, and the tensor holds one more cell of the matrix. */
  lemma RowStep<K, T>(s: Sweep<K, T>, caps: seq<(K, nat)>, t: Tree<T>, c: nat, r: nat)
    requires s.Ok() && c < 6 && r < 6 && s.Partway(caps, t, 6 * c + r) && caps[s.cd].1 == c
    ensures Values(SetEntry(caps, s.rowID, r)) == Path(s.caps0, s.colID, s.rowID, c, r)
    ensures Put(t, Values(SetEntry(caps, s.rowID, r)), Leaf(Some(s.vm[c][r])), TypeError).Success?
    ensures s.Partway(SetEntry(caps, s.rowID, r),
                      Put(t, Values(SetEntry(caps, s.rowID, r)), Leaf(Some(s.vm[c][r])), TypeError).value,
                      6 * c + r + 1)
    ensures SetEntry(caps, s.rowID, r)[s.cd].1 == c && SetEntry(caps, s.rowID, r)[s.rd].1 == r
  {
    var caps' := SetEntry(caps, s.rowID, r);
    SetSlider(s, caps, s.rd, r);
    var p := Path(s.caps0, s.colID, s.rowID, c, r);
    assert Values(caps') == p;
    var leaf := Leaf(Some(s.vm[c][r]));
    PutFull(t, p, leaf, TypeError);
    var t' := Put(t, p, leaf, TypeError).value;
    forall q | |q| == |s.caps0| && InRange(q)
      ensures At(t', q) == s.Expect(6 * c + r + 1, q)
    {
      ExpectStep(s, c, r, q);
    }
  }

  /** Progress does not depend on the two sliders' values. */
  lemma PartwayCaps<K, T>(s: Sweep<K, T>, caps: seq<(K, nat)>, caps': seq<(K, nat)>, t: Tree<T>, k: nat)
    requires s.Ok() && s.Partway(caps, t, k) && s.Others(caps')
    ensures s.Partway(caps', t, k)
  {
  }

  /** The inner loop over a full tensor: no error, and the tensor holds the
      whole column. */
  lemma {:induction false} InsertRowsSweep<K, T>(s: Sweep<K, T>, caps: seq<(K, nat)>, t: Tree<T>,
                                                     c: nat, row: nat)
    requires s.Ok() && c < 6 && row <= 6 && s.Partway(caps, t, 6 * c + row)
    requires caps[s.cd].1 == c && (row > 0 ==> caps[s.rd].1 == row - 1)
    ensures s.Reached(InsertRows(s.rowID, s.vm, caps, t, c, row), 6 * (c + 1), c, 5)
    decreases 6 - row
  {
    if row < 6 {
      RowStep(s, caps, t, c, row);
      var caps' := SetEntry(caps, s.rowID, row);
      var t' := Put(t, Values(caps'), Leaf(Some(s.vm[c][row])), TypeError).value;
      assert MatrixCell(s.vm, c, row) == Success(Leaf(Some(s.vm[c][row])));
      InsertRowsSweep(s, caps', t', c, row + 1);
    }
  }

  /** One column of the sweep: the inner loop after the column slider is
      set raises nothing and writes the whole column. */
  lemma ColStep<K, T>(s: Sweep<K, T>, caps: seq<(K, nat)>, t: Tree<T>, col: nat)
    requires s.Ok() && col < 6 && s.Partway(caps, t, 6 * col)
    ensures s.Reached(InsertRows(s.rowID, s.vm, SetEntry(caps, s.colID, col), t, col, 0), 6 * (col + 1), col, 5)
  {
    var caps1 := SetEntry(caps, s.colID, col);
    assert s.Partway(caps1, t, 6 * col) && caps1[s.cd].1 == col by {
      SetSlider(s, caps, s.cd, col);
      PartwayCaps(s, caps, caps1, t, 6 * col);
    }
    InsertRowsSweep(s, caps1, t, col, 0);
  }

  /** A column written without an error passes on to the next. */
  lemma NextCol<K, T>(colID: K, rowID: K, vm: seq<seq<T>>, caps: seq<(K, nat)>, t: Tree<T>, col: nat)
    requires col < 6 && InsertRows(rowID, vm, SetEntry(caps, colID, col), t, col, 0).error.None?
    ensures InsertCols(colID, rowID, vm, caps, t, col) ==
            InsertCols(colID, rowID, vm, InsertRows(rowID, vm, SetEntry(caps, colID, col), t, col, 0).caps,
                       InsertRows(rowID, vm, SetEntry(caps, colID, col), t, col, 0).tree, col + 1)
  {
  }

  /** The outer loop over a full tensor: no error, and the tensor holds the
      whole matrix. */
  lemma {:induction false} InsertColsSweep<K, T>(s: Sweep<K, T>, caps: seq<(K, nat)>, t: Tree<T>, col: nat)
    requires s.Ok() && col <= 6 && s.Partway(caps, t, 6 * col)
    requires col > 0 ==> caps[s.cd].1 == col - 1 && caps[s.rd].1 == 5
    ensures s.Reached(InsertCols(s.colID, s.rowID, s.vm, caps, t, col), 36, 5, 5)
    decreases 6 - col
  {
    if col < 6 {
      ColStep(s, caps, t, col);
      var rs := InsertRows(s.rowID, s.vm, SetEntry(caps, s.colID, col), t, col, 0);
      NextCol(s.colID, s.rowID, s.vm, caps, t, col);
      InsertColsSweep(s, rs.caps, rs.tree, col + 1);
    }
  }

  /** A map with the initial keys and values but both sliders at 5 is the
      initial map with both sliders set to 5. */
  lemma SweptCaps<K, T>(s: Sweep<K, T>, caps: seq<(K, nat)>)
    requires s.Ok() && s.Others(caps) && caps[s.cd].1 == 5 && caps[s.rd].1 == 5
    ensures caps == SetEntry(SetEntry(s.caps0, s.colID, 5), s.rowID, 5)
  {
    SetSlider(s, s.caps0, s.cd, 5);
    var caps1 := SetEntry(s.caps0, s.colID, 5);
    SetSlider(s, caps1, s.rd, 5);
    var caps2 := SetEntry(caps1, s.rowID, 5);
    assert forall j :: 0 <= j < |caps| ==> caps[j] == caps2[j];
  }

  /** Once the whole sweep is written, the path of column `c` and row `r`
      holds `vm[c][r]`. */
  lemma SweptCell<K, T>(s: Sweep<K, T>, caps: seq<(K, nat)>, t: Tree<T>, c: nat, r: nat)
    requires s.Ok() && s.Partway(caps, t, 36) && c < 6 && r < 6
    ensures At(t, Path(s.caps0, s.colID, s.rowID, c, r)) == Leaf(Some(s.vm[c][r]))
  {
    var p := Path(s.caps0, s.colID, s.rowID, c, r);
    assert p[s.cd] == c && p[s.rd] == r;
    assert InRange(p);
    assert s.Expect(36, p) == Leaf(Some(s.vm[c][r]));
  }

  /** An insertion over a full tensor whose map holds both selected
      producers: it raises nothing, leaves both sliders at 5, writes
      `vm[c][r]` at the path of column `c` and row `r`, and leaves every
      leaf outside the heatmap as it was. */
  lemma InsertSweep<K, T>(colID: K, rowID: K, vm: seq<seq<T>>, caps0: seq<(K, nat)>, t0: Tree<T>,
                              cd: nat, rd: nat)
    requires DistinctKeys(caps0) && colID != rowID
    requires cd < |caps0| && caps0[cd].0 == colID && rd < |caps0| && caps0[rd].0 == rowID
    requires forall j :: 0 <= j < |caps0| && j != cd && j != rd ==> caps0[j].1 < 6
    requires Full(t0, |caps0|) && |vm| >= 6 && forall c :: 0 <= c < 6 ==> |vm[c]| >= 6
    ensures InsertCols(colID, rowID, vm, caps0, t0, 0).error.None?
    ensures InsertCols(colID, rowID, vm, caps0, t0, 0).caps == SetEntry(SetEntry(caps0, colID, 5), rowID, 5)
    ensures Full(InsertCols(colID, rowID, vm, caps0, t0, 0).tree, |caps0|)
    ensures forall c, r :: 0 <= c < 6 && 0 <= r < 6 ==>
              At(InsertCols(colID, rowID, vm, caps0, t0, 0).tree, Path(caps0, colID, rowID, c, r)) == Leaf(Some(vm[c][r]))
    ensures forall q :: |q| == |caps0| && InRange(q) && !Swept(caps0, colID, rowID, q) ==>
              At(InsertCols(colID, rowID, vm, caps0, t0, 0).tree, q) == At(t0, q)
  {
    var s := Sweep(colID, rowID, vm, caps0, t0, cd, rd);
    InsertColsSweep(s, caps0, t0, 0);
    var ins := InsertCols(colID, rowID, vm, caps0, t0, 0);
    SweptCaps(s, ins.caps);
    forall c, r | 0 <= c < 6 && 0 <= r < 6
      ensures At(ins.tree, Path(caps0, colID, rowID, c, r)) == Leaf(Some(vm[c][r]))
    {
      SweptCell(s, ins.caps, ins.tree, c, r);
    }
  }

  // ================================================================ extraction

  /** The fixed arguments of one extraction: the map and the selection it
      reads, the producers spanning columns and rows, and the field read
      from a cell object (`matrixData` or `chartsData`; `None` when the
      caller asks for neither). */
  datatype Query<K, !T, U> = Query(caps: seq<(K, nat)>, selected: Option<(K, K)>, colID: K, rowID: K,
                                  field: Option<T -> Option<U>>)

  /** What an extraction leaves behind: what it returns or raises, and the
      matrix it has written into. */
  datatype Extracted<U> = Extracted(result: Result<Option<U>>, matrix: seq<seq<U>>)

  /** A matrix with at least six rows of at least six entries. */
  predicate Sized<U>(m: seq<seq<U>>) {
    |m| >= 6 && forall r :: 0 <= r < 6 ==> |m[r]| >= 6
  }

  /** Two matrices with rows of the same lengths. */
  predicate SameShape<U>(a: seq<seq<U>>, b: seq<seq<U>>) {
    |a| == |b| && forall r :: 0 <= r < |a| ==> |a[r]| == |b[r]|
  }

  /** The field read from a cell object; nothing from anything else, and
      nothing when no field is asked for. */
  function ReadLeaf<T, U>(field: Option<T -> Option<U>>, t: Tree<T>): Option<U> {
    if field.Some? && t.Leaf? && t.cell.Some? then field.value(t.cell.value) else None
  }

  /** The assignment of a value read back into the matrix: a value that is
      `null` or `undefined` keeps the entry. */
  function Keep<U>(m: seq<seq<U>>, r: nat, c: nat, tmp: Option<U>): (m': seq<seq<U>>)
    requires r < |m| && c < |m[r]|
    ensures SameShape(m', m)
  {
    if tmp.Some? then m[r := m[r][c := tmp.value]] else m
  }

  /** `recExtractDataValuesCell` at depth `d`: at the bottom the field of the
      cell; at a selected producer the loop over its six slider values; at
      any other producer the descent by its current value. */
  function Ex<K(==), T, U>(x: Query<K, T, U>, t: Tree<T>, d: nat, ci: nat, ri: nat, m: seq<seq<U>>): (e: Extracted<U>)
    requires Sized(m) && d <= |x.caps| && ci < 6 && ri < 6
    ensures SameShape(e.matrix, m)
    decreases |x.caps| - d, 7
  {
    if d == |x.caps| then
      if x.field.None? then Extracted(Success(None), m)
      else if Missing(t) then Extracted(Failure(TypeError), m)
      else Extracted(Success(ReadLeaf(x.field, t)), m)
    else if x.selected.None? then Extracted(Failure(TypeError), m)
    else
      var key := x.caps[d].0;
      if key == x.selected.value.0 || key == x.selected.value.1 then
        if key == x.colID then ExCols(x, t, d, ri, 0, m)
        else if key == x.rowID then ExRows(x, t, d, ci, 0, m)
        else Extracted(Success(None), m)
      else if Missing(t) then Extracted(Failure(TypeError), m)
      else Ex(x, Child(t, x.caps[d].1), d + 1, ci, ri, m)
  }

  /** The loop over the column producer's slider values from `c` on, each
      result written into row `ri`. */
  function ExCols<K(==), T, U>(x: Query<K, T, U>, t: Tree<T>, d: nat, ri: nat, c: nat, m: seq<seq<U>>): (e: Extracted<U>)
    requires Sized(m) && d < |x.caps| && ri < 6 && c <= 6
    ensures SameShape(e.matrix, m)
    decreases |x.caps| - d, 6 - c
  {
    if c == 6 then Extracted(Success(None), m)
    else if Missing(t) then Extracted(Failure(TypeError), m)
    else
      var e := Ex(x, Child(t, c), d + 1, c, ri, m);
      if e.result.Failure? then e
      else ExCols(x, t, d, ri, c + 1, Keep(e.matrix, ri, c, e.result.value))
  }

  /** The loop over the row producer's slider values from `r` on, each result
      written into column `ci`. */
  function ExRows<K(==), T, U>(x: Query<K, T, U>, t: Tree<T>, d: nat, ci: nat, r: nat, m: seq<seq<U>>): (e: Extracted<U>)
    requires Sized(m) && d < |x.caps| && ci < 6 && r <= 6
    ensures SameShape(e.matrix, m)
    decreases |x.caps| - d, 6 - r
  {
    if r == 6 then Extracted(Success(None), m)
    else if Missing(t) then Extracted(Failure(TypeError), m)
    else
      var e := Ex(x, Child(t, r), d + 1, ci, r, m);
      if e.result.Failure? then e
      else ExRows(x, t, d, ci, r + 1, Keep(e.matrix, r, ci, e.result.value))
  }

  /** Asking for neither `matrixData` nor `chartsData` returns nothing at
      every cell, so the extraction never writes into the matrix; only a
      missing pointer above the bottom still raises. */
  lemma {:induction false} ExNoField<K, T, U>(x: Query<K, T, U>, t: Tree<T>, d: nat, ci: nat, ri: nat, m: seq<seq<U>>)
    requires Sized(m) && d <= |x.caps| && ci < 6 && ri < 6 && x.field.None?
    ensures Ex(x, t, d, ci, ri, m).matrix == m
    ensures Ex(x, t, d, ci, ri, m).result.Success? ==> Ex(x, t, d, ci, ri, m).result.value.None?
    decreases |x.caps| - d, 7
  {
    if d < |x.caps| && x.selected.Some? {
      var key := x.caps[d].0;
      if key == x.selected.value.0 || key == x.selected.value.1 {
        if key == x.colID {
          ExColsNoField(x, t, d, ri, 0, m);
        } else if key == x.rowID {
          ExRowsNoField(x, t, d, ci, 0, m);
        }
      } else if !Missing(t) {
        ExNoField(x, Child(t, x.caps[d].1), d + 1, ci, ri, m);
      }
    }
  }

  lemma {:induction false} ExColsNoField<K, T, U>(x: Query<K, T, U>, t: Tree<T>, d: nat, ri: nat, c: nat, m: seq<seq<U>>)
    requires Sized(m) && d < |x.caps| && ri < 6 && c <= 6 && x.field.None?
    ensures ExCols(x, t, d, ri, c, m).matrix == m
    ensures ExCols(x, t, d, ri, c, m).result.Success? ==> ExCols(x, t, d, ri, c, m).result.value.None?
    decreases |x.caps| - d, 6 - c
  {
    if c < 6 && !Missing(t) {
      ExNoField(x, Child(t, c), d + 1, c, ri, m);
      var e := Ex(x, Child(t, c), d + 1, c, ri, m);
      if e.result.Success? {
        assert Keep(e.matrix, ri, c, e.result.value) == m;
        ExColsNoField(x, t, d, ri, c + 1, m);
      }
    }
  }

  lemma {:induction false} ExRowsNoField<K, T, U>(x: Query<K, T, U>, t: Tree<T>, d: nat, ci: nat, r: nat, m: seq<seq<U>>)
    requires Sized(m) && d < |x.caps| && ci < 6 && r <= 6 && x.field.None?
    ensures ExRows(x, t, d, ci, r, m).matrix == m
    ensures ExRows(x, t, d, ci, r, m).result.Success? ==> ExRows(x, t, d, ci, r, m).result.value.None?
    decreases |x.caps| - d, 6 - r
  {
    if r < 6 && !Missing(t) {
      ExNoField(x, Child(t, r), d + 1, ci, r, m);
      var e := Ex(x, Child(t, r), d + 1, ci, r, m);
      if e.result.Success? {
        assert Keep(e.matrix, r, ci, e.result.value) == m;
        ExRowsNoField(x, t, d, ci, r + 1, m);
      }
    }
  }

  /** The entries of a two-dimensional array, row by row. */
  ghost function Grid<U>(m: array2<U>): (g: seq<seq<U>>)
    reads m
    ensures |g| == m.Length0
    ensures forall i :: 0 <= i < m.Length0 ==> |g[i]| == m.Length1
    ensures forall i, j :: 0 <= i < m.Length0 && 0 <= j < m.Length1 ==> g[i][j] == m[i, j]
  {
    seq(m.Length0, i requires 0 <= i < m.Length0 reads m =>
      seq(m.Length1, j requires 0 <= j < m.Length1 reads m => m[i, j]))
  }

  /** The query reads a well-formed map holding both sliders, selected as
    column and row, on the values every other producer stands at. */
  ghost predicate QueryOk<K, T, U>(x: Query<K, T, U>, cd: nat, rd: nat) {
    && DistinctKeys(x.caps) && x.colID != x.rowID
    && cd < |x.caps| && x.caps[cd].0 == x.colID && rd < |x.caps| && x.caps[rd].0 == x.rowID
    && x.selected == Some((x.colID, x.rowID))
    && forall j :: 0 <= j < |x.caps| && j != cd && j != rd ==> x.caps[j].1 < 6
  }

  /** Whether the extraction below depth `d`, for the heatmap cell (`ri`,
      `ci`) fixed so far, writes entry (`r`, `c`): a slider already passed
      fixes its coordinate, and once both are passed nothing is written. */
  predicate Writes(cd: nat, rd: nat, d: nat, ci: nat, ri: nat, r: nat, c: nat) {
    r < 6 && c < 6 && !(cd < d && rd < d) && (cd < d ==> c == ci) && (rd < d ==> r == ri)
  }

  /** The field of the leaf below depth `d` on the path of heatmap cell
      (`r`, `c`). */
  ghost function Val<K, T, U>(x: Query<K, T, U>, t: Tree<T>, d: nat, c: nat, r: nat): Option<U>
    requires d <= |x.caps|
  {
    ReadLeaf(x.field, At(t, Path(x.caps, x.colID, x.rowID, c, r)[d..]))
  }

  /** `v ?? dflt`. */
  function Choose<U>(v: Option<U>, dflt: U): U {
    if v.Some? then v.value else dflt
  }

  /** Following a path from position `d` is one step and then the rest. */
  lemma AtStep<T>(t: Tree<T>, p: seq<nat>, d: nat)
    requires d < |p|
    ensures At(t, p[d..]) == At(Child(t, p[d]), p[d + 1..])
  {
    assert p[d..][0] == p[d] && p[d..][1..] == p[d + 1..];
  }

  /** Extraction on a full tensor below depth `d`: it raises nothing, returns
      the leaf's field once both sliders are passed, and writes each entry
      it covers with the field of the leaf on that entry's path, keeping
      the entry where the field is missing. */
  lemma {:induction false} ExSweep<K, T, U>(x: Query<K, T, U>, cd: nat, rd: nat, t: Tree<T>,
                                            d: nat, ci: nat, ri: nat, m: seq<seq<U>>)
    requires QueryOk(x, cd, rd) && d <= |x.caps| && Full(t, |x.caps| - d) && ci < 6 && ri < 6 && Sized(m)
    ensures Ex(x, t, d, ci, ri, m).result == Success(if cd < d && rd < d then Val(x, t, d, ci, ri) else None)
    ensures forall r, c :: 0 <= r < |m| && 0 <= c < |m[r]| ==>
              Ex(x, t, d, ci, ri, m).matrix[r][c] ==
              if Writes(cd, rd, d, ci, ri, r, c) then Choose(Val(x, t, d, c, r), m[r][c]) else m[r][c]
    decreases |x.caps| - d, 7, 0
  {
    var n := |x.caps|;
    if d == n {
      assert Path(x.caps, x.colID, x.rowID, ci, ri)[d..] == [];
    } else if d == cd {
      ExColsSweep(x, cd, rd, t, d, ri, 0, m);
    } else if d == rd {
      ExRowsSweep(x, cd, rd, t, d, ci, 0, m);
    } else {
      var v := x.caps[d].1;
      var child := t.children[v];
      assert Ex(x, t, d, ci, ri, m) == Ex(x, child, d + 1, ci, ri, m);
      ExSweep(x, cd, rd, child, d + 1, ci, ri, m);
      forall c, r | 0 <= c && 0 <= r
        ensures Val(x, child, d + 1, c, r) == Val(x, t, d, c, r)
      {
        AtStep(t, Path(x.caps, x.colID, x.rowID, c, r), d);
      }
    }
  }

  /** One pass of the column loop: the entry of column `c0` read below the
      slider value `c0`, all other entries kept. */
  lemma ColPass<K, T, U>(x: Query<K, T, U>, cd: nat, rd: nat, t: Tree<T>, d: nat, ri: nat, c0: nat, m: seq<seq<U>>)
    requires QueryOk(x, cd, rd) && d == cd && Full(t, |x.caps| - d) && ri < 6 && c0 < 6 && Sized(m)
    ensures Ex(x, Child(t, c0), d + 1, c0, ri, m).result.Success?
    ensures var e := Ex(x, Child(t, c0), d + 1, c0, ri, m);
            forall r, c :: 0 <= r < |m| && 0 <= c < |m[r]| ==>
              Keep(e.matrix, ri, c0, e.result.value)[r][c] ==
              if c == c0 && r < 6 && (rd < d ==> r == ri) then Choose(Val(x, t, d, c, r), m[r][c]) else m[r][c]
    decreases |x.caps| - d, 6 - c0, 0
  {
    var child := t.children[c0];
    ExSweep(x, cd, rd, child, d + 1, c0, ri, m);
    forall r | 0 <= r
      ensures Val(x, child, d + 1, c0, r) == Val(x, t, d, c0, r)
    {
      AtStep(t, Path(x.caps, x.colID, x.rowID, c0, r), d);
    }
  }

  /** One pass of the row loop: the entry of row `r0` read below the slider
      value `r0`, all other entries kept. */
  lemma RowPass<K, T, U>(x: Query<K, T, U>, cd: nat, rd: nat, t: Tree<T>, d: nat, ci: nat, r0: nat, m: seq<seq<U>>)
    requires QueryOk(x, cd, rd) && d == rd && Full(t, |x.caps| - d) && ci < 6 && r0 < 6 && Sized(m)
    ensures Ex(x, Child(t, r0), d + 1, ci, r0, m).result.Success?
    ensures var e := Ex(x, Child(t, r0), d + 1, ci, r0, m);
            forall r, c :: 0 <= r < |m| && 0 <= c < |m[r]| ==>
              Keep(e.matrix, r0, ci, e.result.value)[r][c] ==
              if r == r0 && c < 6 && (cd < d ==> c == ci) then Choose(Val(x, t, d, c, r), m[r][c]) else m[r][c]
    decreases |x.caps| - d, 6 - r0, 0
  {
    var child := t.children[r0];
    ExSweep(x, cd, rd, child, d + 1, ci, r0, m);
    forall c | 0 <= c
      ensures Val(x, child, d + 1, c, r0) == Val(x, t, d, c, r0)
    {
      AtStep(t, Path(x.caps, x.colID, x.rowID, c, r0), d);
    }
  }

  /** The column loop from `c0` on writes every column from `c0` on. */
  lemma {:induction false} ExColsSweep<K, T, U>(x: Query<K, T, U>, cd: nat, rd: nat, t: Tree<T>,
                                                d: nat, ri: nat, c0: nat, m: seq<seq<U>>)
    requires QueryOk(x, cd, rd) && d == cd && Full(t, |x.caps| - d) && ri < 6 && c0 <= 6 && Sized(m)
    ensures ExCols(x, t, d, ri, c0, m).result == Success(None)
    ensures forall r, c :: 0 <= r < |m| && 0 <= c < |m[r]| ==>
              ExCols(x, t, d, ri, c0, m).matrix[r][c] ==
              if c0 <= c < 6 && r < 6 && (rd < d ==> r == ri) then Choose(Val(x, t, d, c, r), m[r][c]) else m[r][c]
    decreases |x.caps| - d, 6 - c0, 1
  {
    if c0 < 6 {
      ColPass(x, cd, rd, t, d, ri, c0, m);
      var e := Ex(x, Child(t, c0), d + 1, c0, ri, m);
      var m1 := Keep(e.matrix, ri, c0, e.result.value);
      ExColsSweep(x, cd, rd, t, d, ri, c0 + 1, m1);
      var all := ExCols(x, t, d, ri, c0, m);
      assert all == ExCols(x, t, d, ri, c0 + 1, m1);
      forall r, c | 0 <= r < |m| && 0 <= c < |m[r]|
        ensures all.matrix[r][c] ==
                if c0 <= c < 6 && r < 6 && (rd < d ==> r == ri) then Choose(Val(x, t, d, c, r), m[r][c]) else m[r][c]
      {
        assert all.matrix[r][c] ==
               if c0 + 1 <= c < 6 && r < 6 && (rd < d ==> r == ri) then Choose(Val(x, t, d, c, r), m1[r][c]) else m1[r][c];
      }
    }
  }

  /** The row loop from `r0` on writes every row from `r0` on. */
  lemma {:induction false} ExRowsSweep<K, T, U>(x: Query<K, T, U>, cd: nat, rd: nat, t: Tree<T>,
                                                d: nat, ci: nat, r0: nat, m: seq<seq<U>>)
    requires QueryOk(x, cd, rd) && d == rd && Full(t, |x.caps| - d) && ci < 6 && r0 <= 6 && Sized(m)
    ensures ExRows(x, t, d, ci, r0, m).result == Success(None)
    ensures forall r, c :: 0 <= r < |m| && 0 <= c < |m[r]| ==>
              ExRows(x, t, d, ci, r0, m).matrix[r][c] ==
              if r0 <= r < 6 && c < 6 && (cd < d ==> c == ci) then Choose(Val(x, t, d, c, r), m[r][c]) else m[r][c]
    decreases |x.caps| - d, 6 - r0, 1
  {
    if r0 < 6 {
      RowPass(x, cd, rd, t, d, ci, r0, m);
      var e := Ex(x, Child(t, r0), d + 1, ci, r0, m);
      var m1 := Keep(e.matrix, r0, ci, e.result.value);
      ExRowsSweep(x, cd, rd, t, d, ci, r0 + 1, m1);
      var all := ExRows(x, t, d, ci, r0, m);
      assert all == ExRows(x, t, d, ci, r0 + 1, m1);
      forall r, c | 0 <= r < |m| && 0 <= c < |m[r]|
        ensures all.matrix[r][c] ==
                if r0 <= r < 6 && c < 6 && (cd < d ==> c == ci) then Choose(Val(x, t, d, c, r), m[r][c]) else m[r][c]
      {
        assert all.matrix[r][c] ==
               if r0 + 1 <= r < 6 && c < 6 && (cd < d ==> c == ci) then Choose(Val(x, t, d, c, r), m1[r][c]) else m1[r][c];
      }
    }
  }

  /** Extraction from a full tensor, for the whole heatmap: it returns
      nothing and raises nothing, entry (`r`, `c`) of the six by six block
      receives the field of the leaf at the path of column `c` and row `r`
      (the entry is kept where that field is missing), and the rest of the
      matrix is kept. */
  lemma ExtractSweep<K, T, U>(x: Query<K, T, U>, cd: nat, rd: nat, t: Tree<T>, m: seq<seq<U>>)
    requires QueryOk(x, cd, rd) && Full(t, |x.caps|) && Sized(m)
    ensures Ex(x, t, 0, 0, 0, m).result == Success(None)
    ensures forall r, c :: 0 <= r < |m| && 0 <= c < |m[r]| ==>
              Ex(x, t, 0, 0, 0, m).matrix[r][c] ==
              if r < 6 && c < 6
              then Choose(ReadLeaf(x.field, At(t, Path(x.caps, x.colID, x.rowID, c, r))), m[r][c])
              else m[r][c]
  {
    ExSweep(x, cd, rd, t, 0, 0, 0, m);
    forall c, r | 0 <= c && 0 <= r
      ensures Val(x, t, 0, c, r) == ReadLeaf(x.field, At(t, Path(x.caps, x.colID, x.rowID, c, r)))
    {
      assert Path(x.caps, x.colID, x.rowID, c, r)[0..] == Path(x.caps, x.colID, x.rowID, c, r);
    }
  }

  /** After a sweep the map still has distinct keys, and every producer
      but the two sliders stands at a slider value. */
  lemma SweptQuery<K, T>(s: Sweep<K, T>, caps: seq<(K, nat)>)
    requires s.Ok() && s.Others(caps) && caps[s.cd].1 < 6 && caps[s.rd].1 < 6
    ensures DistinctKeys(caps)
    ensures forall j :: 0 <= j < |caps| && j != s.cd && j != s.rd ==> caps[j].1 < 6
  {
  }

  /** After a sweep the map addresses the same heatmap paths as before. */
  lemma SweptPath<K, T>(s: Sweep<K, T>, caps: seq<(K, nat)>, c: nat, r: nat)
    requires s.Ok() && s.Others(caps)
    ensures Path(caps, s.colID, s.rowID, c, r) == Path(s.caps0, s.colID, s.rowID, c, r)
  {
    var p, p0 := Path(caps, s.colID, s.rowID, c, r), Path(s.caps0, s.colID, s.rowID, c, r);
    assert forall j :: 0 <= j < |p| ==> p[j] == p0[j];
  }

  /** Extraction of the heatmap of `colID` and `rowID` from what an
      insertion leaves behind returns nothing, raises nothing, writes entry
      (`r`, `c`) with the field of `vm[c][r]` where that field is present,
      and keeps the rest of the matrix. */
  ghost predicate Extracts<K, T, U>(ins: Inserted<K, T>, colID: K, rowID: K, vm: seq<seq<T>>,
                                       field: T -> Option<U>, m: seq<seq<U>>)
    requires Sized(m) && |vm| >= 6 && forall c :: 0 <= c < 6 ==> |vm[c]| >= 6
  {
    var e := Ex(Query(ins.caps, Some((colID, rowID)), colID, rowID, Some(field)), ins.tree, 0, 0, 0, m);
    && e.result == Success(None)
    && forall r, c :: 0 <= r < |m| && 0 <= c < |m[r]| ==>
         e.matrix[r][c] == if r < 6 && c < 6 then Choose(field(vm[c][r]), m[r][c]) else m[r][c]
  }

  /** Extraction from the state a sweep leaves behind returns the swept
      matrix transposed. */
  lemma ExtractAfterSweep<K, T, U>(s: Sweep<K, T>, colID: K, rowID: K, vm: seq<seq<T>>, ins: Inserted<K, T>,
                                   field: T -> Option<U>, m: seq<seq<U>>)
    requires s.Ok() && s.colID == colID && s.rowID == rowID && s.vm == vm
    requires s.Reached(ins, 36, 5, 5) && Sized(m)
    ensures Extracts(ins, colID, rowID, vm, field, m)
  {
    SweptQuery(s, ins.caps);
    var x := Query(ins.caps, Some((colID, rowID)), colID, rowID, Some(field));
    ExtractSweep(x, s.cd, s.rd, ins.tree, m);
    var e := Ex(x, ins.tree, 0, 0, 0, m);
    forall r, c | 0 <= r < |m| && 0 <= c < |m[r]|
      ensures e.matrix[r][c] == if r < 6 && c < 6 then Choose(field(vm[c][r]), m[r][c]) else m[r][c]
    {
      if r < 6 && c < 6 {
        SweptCell(s, ins.caps, ins.tree, c, r);
        SweptPath(s, ins.caps, c, r);
        assert ReadLeaf(Some(field), At(ins.tree, Path(ins.caps, colID, rowID, c, r))) == field(vm[c][r]);
      }
    }
  }

  /** Inserting a matrix into a full tensor and extracting the same two
      sliders' heatmap gives the matrix back transposed: entry (`r`, `c`)
      receives the field of `vm[c][r]`, kept where that field is missing. */
  lemma InsertThenExtract<K, T, U>(colID: K, rowID: K, vm: seq<seq<T>>, caps0: seq<(K, nat)>, t0: Tree<T>,
                                   cd: nat, rd: nat, field: T -> Option<U>, m: seq<seq<U>>)
    requires DistinctKeys(caps0) && colID != rowID
    requires cd < |caps0| && caps0[cd].0 == colID && rd < |caps0| && caps0[rd].0 == rowID
    requires forall j :: 0 <= j < |caps0| && j != cd && j != rd ==> caps0[j].1 < 6
    requires Full(t0, |caps0|) && |vm| >= 6 && (forall c :: 0 <= c < 6 ==> |vm[c]| >= 6) && Sized(m)
    ensures Extracts(InsertCols(colID, rowID, vm, caps0, t0, 0), colID, rowID, vm, field, m)
  {
    var s := Sweep(colID, rowID, vm, caps0, t0, cd, rd);
    var ins := InsertCols(colID, rowID, vm, caps0, t0, 0);
    assert s.Reached(ins, 36, 5, 5) by {
      InsertColsSweep(s, caps0, t0, 0);
    }
    ExtractAfterSweep(s, colID, rowID, vm, ins, field, m);
  }

  // ================================================================ the store

  /** The result tensor with the slider state it is read and written
      through. */
  class DataStore<K(==), T> {
    /** The two producers whose sliders span the heatmap. */
    var selectedNodes: Option<(K, K)>
    /** Each producer's current slider value, in the order of the map. */
    var prodCapacities: seq<(K, nat)>
    /** The tensor, `null` until the first result arrives. */
    var dataValues: Tree<T>

    /** The empty store; `unset` is the placeholder id of an unselected
        slot. */
    constructor (unset: K)
      ensures selectedNodes == Some((unset, unset))
      ensures prodCapacities == [] && dataValues == Leaf(None)
    {
      selectedNodes := Some((unset, unset));
      prodCapacities := [];
      dataValues := Leaf(None);
    }

    /** Whether `id` is the first selected producer. */
    predicate IsSelectedFirst(id: K)
      reads this
    {
      selectedNodes.Some? && selectedNodes.value.0 == id
    }

    /** Whether `id` is the second selected producer. */
    predicate IsSelectedSecond(id: K)
      reads this
    {
      selectedNodes.Some? && selectedNodes.value.1 == id
    }

    /** `getDataValuesCell`: the leaf addressed by the current slider
        values, walking down from `pointer`. */
    method GetCell(pointer: Tree<T>) returns (r: Result<Tree<T>>)
      ensures r == Walk(pointer, Values(prodCapacities))
    {
      var caps := prodCapacities;
      ghost var path := Values(caps);
      var p := pointer;
      var i: nat := 0;
      while i < |caps|
        invariant i <= |caps| && Walk(pointer, path) == Walk(p, path[i..])
      {
        var k := caps[i].1;
        assert path[i..][0] == k && path[i..][1..] == path[i + 1..];
        if i == |caps| - 1 {
          if Missing(p) {
            return Failure(TypeError);
          }
          return Success(Child(p, k));
        }
        if Missing(p) {
          return Failure(DepthMismatch);
        }
        p := Child(p, k);
        i := i + 1;
      }
      assert path[i..] == [];
      return Success(Leaf(None));
    }

    /** `updateDataValuesCell`: the tensor below `pointer` with the simulation
        result written at the current slider values. The walk down keeps
        the arrays it passes, and the write is carried back up through
        them. */
    method UpdateCell(pointer: Tree<T>, simData: T) returns (r: Result<Tree<T>>)
      ensures r == Put(pointer, Values(prodCapacities), Leaf(Some(simData)), DepthMismatch)
    {
      var caps := prodCapacities;
      ghost var path := Values(caps);
      ghost var goal := Put(pointer, path, Leaf(Some(simData)), DepthMismatch);
      if |caps| == 0 {
        return Success(pointer);
      }
      var spine: seq<Tree<T>> := [];
      var p := pointer;
      var i: nat := 0;
      while i < |caps| - 1
        invariant i < |caps| && |spine| == i
        invariant goal == Lift(spine, path, Put(p, path[i..], Leaf(Some(simData)), DepthMismatch))
      {
        if Missing(p) {
          LiftFailure(spine, path, DepthMismatch);
          return Failure(DepthMismatch);
        }
        LiftStep(spine, path, p, Leaf(Some(simData)), DepthMismatch);
        spine := spine + [p];
        p := Child(p, caps[i].1);
        i := i + 1;
      }
      assert path[i..] == [caps[i].1];
      if Missing(p) {
        LiftFailure(spine, path, TypeError);
        return Failure(TypeError);
      }
      var cur := SetChild(p, caps[i].1, Leaf(Some(simData)));
      assert spine[..i] == spine;
      assert Put(p, path[i..], Leaf(Some(simData)), DepthMismatch) == Success(cur);
      while 0 < i
        invariant i <= |spine| && goal == Lift(spine[..i], path, Success(cur))
      {
        assert spine[..i][..i - 1] == spine[..i - 1];
        cur := SetChild(spine[i - 1], caps[i - 1].1, cur);
        i := i - 1;
      }
      return Success(cur);
    }
    /** `insertDataValuesCell`: sweeps the two selected producers' sliders
        over the matrix, writing `valueMatrix[col][row]` at the current
        slider values each time. */
    method InsertCell(valueMatrix: seq<seq<T>>, pointer: Tree<T>) returns (tree: Tree<T>, error: Option<string>)
      modifies this`prodCapacities
      ensures old(selectedNodes).None? ==>
                prodCapacities == old(prodCapacities) && tree == pointer && error == Some(TypeError)
      ensures old(selectedNodes).Some? ==>
                Inserted(prodCapacities, tree, error) ==
                InsertCols(selectedNodes.value.0, selectedNodes.value.1, valueMatrix, old(prodCapacities), pointer, 0)
    {
      if selectedNodes.None? {
        return pointer, Some(TypeError);
      }
      var colID, rowID := selectedNodes.value.0, selectedNodes.value.1;
      ghost var goal := InsertCols(colID, rowID, valueMatrix, prodCapacities, pointer, 0);
      tree := pointer;
      var col: nat := 0;
      while col < 6
        invariant col <= 6 && goal == InsertCols(colID, rowID, valueMatrix, prodCapacities, tree, col)
      {
        tree, error := InsertColumn(colID, rowID, valueMatrix, tree, col);
        if error.Some? {
          return;
        }
        col := col + 1;
      }
      return tree, None;
    }

    /** One pass of the outer loop of `insertDataValuesCell`: set the column
        producer's slider to `col`, then write the column's six cells, each
        at the current slider values; the recursive write is `Put`. */
    method InsertColumn(colID: K, rowID: K, valueMatrix: seq<seq<T>>, pointer: Tree<T>, col: nat)
      returns (tree: Tree<T>, error: Option<string>)
      modifies this`prodCapacities
      ensures Inserted(prodCapacities, tree, error) ==
              InsertRows(rowID, valueMatrix, SetEntry(old(prodCapacities), colID, col), pointer, col, 0)
    {
      prodCapacities := SetEntry(prodCapacities, colID, col);
      ghost var goal := InsertRows(rowID, valueMatrix, prodCapacities, pointer, col, 0);
      tree := pointer;
      var row: nat := 0;
      while row < 6
        invariant row <= 6 && goal == InsertRows(rowID, valueMatrix, prodCapacities, tree, col, row)
      {
        prodCapacities := SetEntry(prodCapacities, rowID, row);
        if col >= |valueMatrix| {
          return tree, Some(TypeError);
        }
        var value := if row < |valueMatrix[col]| then Leaf(Some(valueMatrix[col][row])) else Leaf(None);
        var put := Put(tree, Values(prodCapacities), value, TypeError);
        if put.Failure? {
          return tree, Some(put.error);
        }
        tree := put.value;
        row := row + 1;
      }
      return tree, None;
    }
    /** `extractDataValuesCell`: fills the heatmap matrix from the tensor
        below `pointer`, reading `field` of each cell object reached
        (`matrixData` when `forMatrix`, else `chartsData` when `forCharts`,
        else `None`). */
    method ExtractCell<U>(m: array2<U>, pointer: Tree<T>, colID: K, rowID: K, field: Option<T -> Option<U>>)
      returns (r: Result<Option<U>>)
      requires m.Length0 >= 6 && m.Length1 >= 6
      modifies m
      ensures Extracted(r, Grid(m)) ==
              Ex(Query(prodCapacities, selectedNodes, colID, rowID, field), pointer, 0, 0, 0, old(Grid(m)))
    {
      r := ExtractFrom(m, Query(prodCapacities, selectedNodes, colID, rowID, field), pointer, 0, 0, 0);
    }

    /** `recExtractDataValuesCell`: the extraction below `t` at depth `d`,
        for the heatmap cell (`ri`, `ci`) fixed so far. */
    method ExtractFrom<U>(m: array2<U>, x: Query<K, T, U>, t: Tree<T>, d: nat, ci: nat, ri: nat)
      returns (r: Result<Option<U>>)
      requires m.Length0 >= 6 && m.Length1 >= 6 && d <= |x.caps| && ci < 6 && ri < 6
      modifies m
      ensures Extracted(r, Grid(m)) == Ex(x, t, d, ci, ri, old(Grid(m)))
      decreases |x.caps| - d
    {
      ghost var m0 := Grid(m);
      if d == |x.caps| {
        if x.field.None? {
          return Success(None);
        }
        if Missing(t) {
          return Failure(TypeError);
        }
        return Success(ReadLeaf(x.field, t));
      }
      if x.selected.None? {
        return Failure(TypeError);
      }
      var key := x.caps[d].0;
      if key == x.selected.value.0 || key == x.selected.value.1 {
        if key == x.colID {
          var c: nat := 0;
          while c < 6
            invariant c <= 6 && Ex(x, t, d, ci, ri, m0) == ExCols(x, t, d, ri, c, Grid(m))
          {
            if Missing(t) {
              return Failure(TypeError);
            }
            var tmp := ExtractFrom(m, x, Child(t, c), d + 1, c, ri);
            if tmp.Failure? {
              return tmp;
            }
            Store(m, ri, c, tmp.value);
            c := c + 1;
          }
        } else if key == x.rowID {
          var row: nat := 0;
          while row < 6
            invariant row <= 6 && Ex(x, t, d, ci, ri, m0) == ExRows(x, t, d, ci, row, Grid(m))
          {
            if Missing(t) {
              return Failure(TypeError);
            }
            var tmp := ExtractFrom(m, x, Child(t, row), d + 1, ci, row);
            if tmp.Failure? {
              return tmp;
            }
            Store(m, row, ci, tmp.value);
            row := row + 1;
          }
        }
        return Success(None);
      }
      if Missing(t) {
        return Failure(TypeError);
      }
      r := ExtractFrom(m, x, Child(t, x.caps[d].1), d + 1, ci, ri);
    }
  }

  /** `matrix[r][c] = tmp ?? matrix[r][c]`. */
  method Store<U>(m: array2<U>, r: nat, c: nat, tmp: Option<U>)
    requires r < m.Length0 && c < m.Length1
    modifies m
    ensures Grid(m) == Keep(old(Grid(m)), r, c, tmp)
  {
    ghost var g := Grid(m);
    if tmp.Some? {
      m[r, c] := tmp.value;
    }
    assert forall i :: 0 <= i < m.Length0 ==> Grid(m)[i] == Keep(g, r, c, tmp)[i];
  }
}
