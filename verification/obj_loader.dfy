/** The attribute flattening of loadObj (main.cpp): after the OBJ parser
    has produced its attribute arrays and shapes, every face corner of every
    shape is written out as one interleaved record of eight floats —
    position (3), normal (3), texture coordinate (2) — in shape order and
    corner order. The parser itself and the GPU upload are not modelled. */
module ObjLoader {

  /** Floats per interleaved vertex record. */
  const RecordSize: nat := 8

  /** One face corner as the parser reports it: indices into the position,
      normal and texture-coordinate arrays; a negative normal or texture
      index means the corner has none. */
  datatype Index = Index(vertexIndex: int, normalIndex: int, texcoordIndex: int)

  /** The parser's flat attribute arrays: xyz triples of positions and
      normals, uv pairs of texture coordinates. */
  datatype Attrib = Attrib(vertices: seq<real>, normals: seq<real>, texcoords: seq<real>)

  /** One shape: its face corners in file order. */
  datatype Shape = Shape(indices: seq<Index>)

  /** The parser's verdict on a file. */
  datatype ParseResult = ParseError | Parsed(attrib: Attrib, shapes: seq<Shape>)

  /** The corner carries a normal that is written out. */
  predicate HasNormal(a: Attrib, idx: Index) {
    idx.normalIndex >= 0 && |a.normals| != 0
  }

  /** The corner carries a texture coordinate that is written out. */
  predicate HasTexcoord(a: Attrib, idx: Index) {
    idx.texcoordIndex >= 0 && |a.texcoords| != 0
  }

  /** Every array access loadObj makes for this corner is in bounds, as the
      parser guarantees for the indices it produces. */
  predicate IndexValid(a: Attrib, idx: Index) {
    && 0 <= idx.vertexIndex && 3 * idx.vertexIndex + 2 < |a.vertices|
    && (HasNormal(a, idx) ==> 3 * idx.normalIndex + 2 < |a.normals|)
    && (HasTexcoord(a, idx) ==> 2 * idx.texcoordIndex + 1 < |a.texcoords|)
  }

  predicate AllValid(a: Attrib, idxs: seq<Index>) {
    forall i :: 0 <= i < |idxs| ==> IndexValid(a, idxs[i])
  }

  /** The eight floats written for one corner. A missing normal becomes
      (0, 1, 0), a missing texture coordinate (0, 0); v is flipped to 1 - v. */
  function Corner(a: Attrib, idx: Index): (r: seq<real>)
    requires IndexValid(a, idx)
    ensures |r| == RecordSize
  {
    var v := 3 * idx.vertexIndex;
    var position := [a.vertices[v], a.vertices[v + 1], a.vertices[v + 2]];
    var normal :=
      if HasNormal(a, idx) then
        var n := 3 * idx.normalIndex;
        [a.normals[n], a.normals[n + 1], a.normals[n + 2]]
      else [0.0, 1.0, 0.0];
    var texcoord :=
      if HasTexcoord(a, idx) then
        var t := 2 * idx.texcoordIndex;
        [a.texcoords[t], 1.0 - a.texcoords[t + 1]]
      else [0.0, 0.0];
    position + normal + texcoord
  }

  /** All corners of all shapes, shape after shape. */
  function AllIndices(shapes: seq<Shape>): (r: seq<Index>)
    decreases |shapes|
  {
    if |shapes| == 0 then [] else AllIndices(shapes[..|shapes| - 1]) + shapes[|shapes| - 1].indices
  }

  /** The records of a sequence of corners, one after the other. */
  function Flatten(a: Attrib, idxs: seq<Index>): (r: seq<real>)
    requires AllValid(a, idxs)
    decreases |idxs|
  {
    if |idxs| == 0 then [] else Flatten(a, idxs[..|idxs| - 1]) + Corner(a, idxs[|idxs| - 1])
  }

  lemma AllValidPrefix(a: Attrib, idxs: seq<Index>, n: nat)
    requires AllValid(a, idxs) && n <= |idxs|
    ensures AllValid(a, idxs[..n])
  {
    assert forall i :: 0 <= i < n ==> idxs[..n][i] == idxs[i];
  }

  /** Eight floats per corner. */
  lemma {:induction false} FlattenLength(a: Attrib, idxs: seq<Index>)
    requires AllValid(a, idxs)
    ensures |Flatten(a, idxs)| == RecordSize * |idxs|
    decreases |idxs|
  {
    if |idxs| > 0 {
      AllValidPrefix(a, idxs, |idxs| - 1);
      FlattenLength(a, idxs[..|idxs| - 1]);
    }
  }

  /** Record k of the flattened corners is exactly the record of corner k:
      the output can be cut back into per-corner records. */
  lemma {:induction false} FlattenRecord(a: Attrib, idxs: seq<Index>, k: nat)
    requires AllValid(a, idxs) && k < |idxs|
    ensures RecordSize * k + RecordSize <= |Flatten(a, idxs)|
    ensures Flatten(a, idxs)[RecordSize * k .. RecordSize * k + RecordSize] == Corner(a, idxs[k])
    decreases |idxs|
  {
    var n := |idxs| - 1;
    var init := idxs[..n];
    AllValidPrefix(a, idxs, n);
    FlattenLength(a, init);
    FlattenLength(a, idxs);
    if k < n {
      FlattenRecord(a, init, k);
      assert init[k] == idxs[k];
      assert Flatten(a, idxs)[RecordSize * k .. RecordSize * k + RecordSize]
          == Flatten(a, init)[RecordSize * k .. RecordSize * k + RecordSize];
    } else {
      assert Flatten(a, idxs)[RecordSize * k .. RecordSize * k + RecordSize] == Corner(a, idxs[k]);
    }
  }

  /** The corner list grows by one corner. */
  lemma FlattenSnoc(a: Attrib, idxs: seq<Index>, idx: Index)
    requires AllValid(a, idxs) && IndexValid(a, idx)
    ensures AllValid(a, idxs + [idx])
    ensures Flatten(a, idxs + [idx]) == Flatten(a, idxs) + Corner(a, idx)
  {
    assert (idxs + [idx])[..|idxs|] == idxs;
  }

  /** AllIndices grows by one shape's corners. */
  lemma AllIndicesSnoc(shapes: seq<Shape>, n: nat)
    requires n < |shapes|
    ensures AllIndices(shapes[..n + 1]) == AllIndices(shapes[..n]) + shapes[n].indices
  {
    assert shapes[..n + 1][..n] == shapes[..n];
  }

  /** The corner lists a valid parse produces are usable. */
  predicate ShapesValid(a: Attrib, shapes: seq<Shape>) {
    AllValid(a, AllIndices(shapes))
  }

  /** The nested loops of loadObj, appending each corner's record to the
      output buffer, which is cleared first. */
  method FlattenShapes(a: Attrib, shapes: seq<Shape>) returns (out: seq<real>)
    requires ShapesValid(a, shapes)
    ensures out == Flatten(a, AllIndices(shapes))
    ensures |out| == RecordSize * |AllIndices(shapes)|
  {
    out := [];
    var i := 0;
    assert shapes[..0] == [];
    while i < |shapes|
      invariant 0 <= i <= |shapes|
      invariant AllValid(a, AllIndices(shapes[..i]))
      invariant out == Flatten(a, AllIndices(shapes[..i]))
    {
      AllIndicesSnoc(shapes, i);
      PrefixOfAll(shapes, i + 1);
      AllValidPrefix(a, AllIndices(shapes), |AllIndices(shapes[..i + 1])|);
      assert AllIndices(shapes)[..|AllIndices(shapes[..i + 1])|] == AllIndices(shapes[..i + 1]);
      out := AppendShape(a, AllIndices(shapes[..i]), shapes[i].indices, out);
      i := i + 1;
    }
    assert shapes[..i] == shapes;
    FlattenLength(a, AllIndices(shapes));
  }

  /** The inner loop of loadObj: the records of one shape's corners are
      appended after those already written. */
  method AppendShape(a: Attrib, done: seq<Index>, idxs: seq<Index>, out: seq<real>) returns (out': seq<real>)
    requires AllValid(a, done) && AllValid(a, done + idxs)
    requires out == Flatten(a, done)
    ensures out' == Flatten(a, done + idxs)
  {
    out' := out;
    var j := 0;
    assert done + idxs[..0] == done;
    while j < |idxs|
      invariant 0 <= j <= |idxs|
      invariant AllValid(a, done + idxs[..j])
      invariant out' == Flatten(a, done + idxs[..j])
    {
      assert done + idxs[..j + 1] == (done + idxs[..j]) + [idxs[j]];
      assert (done + idxs)[|done| + j] == idxs[j];
      FlattenSnoc(a, done + idxs[..j], idxs[j]);
      out' := out' + Corner(a, idxs[j]);
      j := j + 1;
    }
    assert idxs[..j] == idxs;
  }

  /** The corners of the first n shapes are a prefix of all corners. */
  lemma {:induction false} PrefixOfAll(shapes: seq<Shape>, n: nat)
    requires n <= |shapes|
    ensures AllIndices(shapes[..n]) <= AllIndices(shapes)
    decreases |shapes| - n
  {
    if n < |shapes| {
      PrefixOfAll(shapes, n + 1);
      AllIndicesSnoc(shapes, n);
    } else {
      assert shapes[..n] == shapes;
    }
  }

  /** The caller-visible outcome of loadObj: its result, the output buffer
      and the vertex count. */
  datatype LoadResult = LoadResult(ok: bool, out: seq<real>, vertexCount: int)

  /** loadObj without the GPU upload. On a parse error it returns false and
      leaves the caller's buffer and count untouched; otherwise it replaces
      the buffer with the flattened records, sets the count to the number of
      records, and succeeds exactly when there is at least one. */
  method LoadObj(parse: ParseResult, out: seq<real>, vertexCount: int) returns (r: LoadResult)
    requires parse.Parsed? ==> ShapesValid(parse.attrib, parse.shapes)
    ensures parse.ParseError? ==> r == LoadResult(false, out, vertexCount)
    ensures parse.Parsed? ==>
      && r.vertexCount == |AllIndices(parse.shapes)|
      && |r.out| == RecordSize * r.vertexCount
      && (r.ok <==> r.vertexCount > 0)
      && forall k :: 0 <= k < r.vertexCount ==>
           r.out[RecordSize * k .. RecordSize * k + RecordSize] == Corner(parse.attrib, AllIndices(parse.shapes)[k])
  {
    if parse.ParseError? {
      return LoadResult(false, out, vertexCount);
    }
    var flat := FlattenShapes(parse.attrib, parse.shapes);
    var count := |flat| / RecordSize;
    var all := AllIndices(parse.shapes);
    assert count == |all|;
    forall k | 0 <= k < count
      ensures flat[RecordSize * k .. RecordSize * k + RecordSize] == Corner(parse.attrib, all[k])
    {
      FlattenRecord(parse.attrib, all, k);
    }
    r := LoadResult(count != 0, flat, count);
  }

  /** Reading back a record recovers the corner's attributes: the position
      it indexes, its normal when it has one, and its texture coordinate
      with v flipped back. */
  lemma RecordRecoversAttributes(a: Attrib, idx: Index)
    requires IndexValid(a, idx)
    ensures var r := Corner(a, idx); var v := 3 * idx.vertexIndex;
      r[0..3] == a.vertices[v .. v + 3]
    ensures var r := Corner(a, idx);
      HasNormal(a, idx) ==> r[3..6] == a.normals[3 * idx.normalIndex .. 3 * idx.normalIndex + 3]
    ensures var r := Corner(a, idx);
      !HasNormal(a, idx) ==> r[3..6] == [0.0, 1.0, 0.0]
    ensures var r := Corner(a, idx);
      HasTexcoord(a, idx) ==>
        r[6] == a.texcoords[2 * idx.texcoordIndex] && 1.0 - r[7] == a.texcoords[2 * idx.texcoordIndex + 1]
    ensures var r := Corner(a, idx);
      !HasTexcoord(a, idx) ==> r[6..8] == [0.0, 0.0]
  {
  }
}
