/** The geometry store reader: looks a record ID up in an offset map,
    positions the stream at the record and reads its vertices in file order.
    loadPolygonGeometry also accumulates the polygon's bounding rectangle;
    the two BOOST variants only copy the vertices. */
module Loader {
  import opened Mbr
  import opened GeometryFile

  datatype Option<T> = None | Some(value: T)

  /** The source's Polygon: its ID, its vertices and its bounding rectangle.
      mbr is None when the loader never wrote it: the polygon then carries
      whatever rectangle its constructor gives it. */
  datatype Polygon = Polygon(recID: nat, vertices: seq<Point>, mbr: Option<MBR>)

  /** What loadPolygonGeometry ends with: a polygon, or the std::length_error
      that vector::reserve throws for a negative vertex count. */
  datatype LoadOutcome = Loaded(polygon: Polygon) | LengthError

  /** What the loaders need of the file: a complete record at the offset
      the map gives for the ID, when the map has the ID. */
  predicate CanLoad(recID: nat, offsetMap: map<nat, nat>, f: map<int, Field>) {
    recID in offsetMap ==> CompleteRecord(f, offsetMap[recID])
  }

  /** Seek to the record the way the source does, by the distance from the
      current position, which lands on the record whatever the position was;
      then read the record ID (not checked) and the vertex count. */
  method SeekAndReadHeader(offset: nat, fin: InputStream) returns (vertexCount: Int32)
    requires CompleteRecord(fin.fields, offset)
    modifies fin
    ensures vertexCount == CountAt(fin.fields, offset)
    ensures fin.pos == XOffset(offset, 0)
  {
    var here := fin.TellG();
    fin.SeekCur(offset - here);
    var readID := fin.ReadInt();
    vertexCount := fin.ReadInt();
  }

  /** loadPolygonGeometry */
  method LoadPolygonGeometry(recID: nat, offsetMap: map<nat, nat>, fin: InputStream) returns (out: LoadOutcome)
    requires CanLoad(recID, offsetMap, fin.fields)
    modifies fin
    ensures recID !in offsetMap ==> out == Loaded(Polygon(recID, [], None)) && fin.pos == old(fin.pos)
    ensures recID in offsetMap && CountAt(fin.fields, offsetMap[recID]) < 0 ==>
              out == LengthError && fin.pos == XOffset(offsetMap[recID], 0)
    ensures recID in offsetMap && CountAt(fin.fields, offsetMap[recID]) >= 0 ==>
              var vs := RecordVertices(fin.fields, offsetMap[recID]);
              out == Loaded(Polygon(recID, vs, Some(RunningMbr(vs))))
              && fin.pos == RecordEnd(fin.fields, offsetMap[recID])
    ensures out.Loaded? && out.polygon.mbr.Some? ==>
              forall k :: 0 <= k < |out.polygon.vertices| ==>
                Contains(out.polygon.mbr.value, out.polygon.vertices[k])
    ensures out.Loaded? && out.polygon.mbr.Some? && out.polygon.vertices == [] ==>
              out.polygon.mbr.value == Sentinel
  {
    if recID !in offsetMap {
      return Loaded(Polygon(recID, [], None));
    }
    var offset := offsetMap[recID];
    var vertexCount := SeekAndReadHeader(offset, fin);
    if vertexCount < 0 {
      // vertices.reserve(vertexCount) converts the count to a size beyond max_size()
      return LengthError;
    }
    var vs: seq<Point> := [];
    var xMin, yMin, xMax, yMax := IntMax, IntMax, -IntMax, -IntMax;
    var i := 0;
    while i < vertexCount
      invariant 0 <= i <= vertexCount
      invariant fin.pos == XOffset(offset, i)
      invariant vs == StoredVertices(fin.fields, offset, i)
      invariant MBR(Point(xMin, yMin), Point(xMax, yMax)) == RunningMbr(vs)
    {
      var x := fin.ReadDouble();
      var y := fin.ReadDouble();
      assert (vs + [Point(x, y)])[..|vs|] == vs;
      vs := vs + [Point(x, y)];
      xMin := Min(xMin, x);
      yMin := Min(yMin, y);
      xMax := Max(xMax, x);
      yMax := Max(yMax, y);
      i := i + 1;
    }
    RunningMbrBounds(vs);
    return Loaded(Polygon(recID, vs, Some(MBR(Point(xMin, yMin), Point(xMax, yMax)))));
  }

  /** The vertex-copy loop of the BOOST loaders: vertexCount pairs appended
      in file order, none for a count that is not positive. */
  method CopyVertices(offset: nat, vertexCount: Int32, fin: InputStream) returns (vs: seq<Point>)
    requires CompleteRecord(fin.fields, offset) && vertexCount == CountAt(fin.fields, offset)
    requires fin.pos == XOffset(offset, 0)
    modifies fin
    ensures vs == RecordVertices(fin.fields, offset)
    ensures fin.pos == RecordEnd(fin.fields, offset)
  {
    vs := [];
    var i := 0;
    while i < vertexCount
      invariant 0 <= i <= (if vertexCount < 0 then 0 else vertexCount)
      invariant fin.pos == XOffset(offset, i)
      invariant vs == StoredVertices(fin.fields, offset, i)
    {
      var x := fin.ReadDouble();
      var y := fin.ReadDouble();
      vs := vs + [Point(x, y)];
      i := i + 1;
    }
  }

  /** loadPolygonGeometryBOOST, up to the ring correction: the outer ring's
      vertices, empty for an ID the map does not have. */
  method LoadPolygonGeometryBoost(recID: nat, offsetMap: map<nat, nat>, fin: InputStream) returns (outer: seq<Point>)
    requires CanLoad(recID, offsetMap, fin.fields)
    modifies fin
    ensures recID !in offsetMap ==> outer == [] && fin.pos == old(fin.pos)
    ensures recID in offsetMap ==>
              outer == RecordVertices(fin.fields, offsetMap[recID])
              && fin.pos == RecordEnd(fin.fields, offsetMap[recID])
  {
    outer := [];
    if recID in offsetMap {
      var offset := offsetMap[recID];
      var vertexCount := SeekAndReadHeader(offset, fin);
      outer := CopyVertices(offset, vertexCount, fin);
    }
  }

  /** loadLinestringGeometryBOOST: the linestring's vertices, empty for an
      ID the map does not have. */
  method LoadLinestringGeometryBoost(recID: nat, offsetMap: map<nat, nat>, fin: InputStream) returns (ls: seq<Point>)
    requires CanLoad(recID, offsetMap, fin.fields)
    modifies fin
    ensures recID !in offsetMap ==> ls == [] && fin.pos == old(fin.pos)
    ensures recID in offsetMap ==>
              ls == RecordVertices(fin.fields, offsetMap[recID])
              && fin.pos == RecordEnd(fin.fields, offsetMap[recID])
  {
    ls := [];
    if recID in offsetMap {
      var offset := offsetMap[recID];
      var vertexCount := SeekAndReadHeader(offset, fin);
      ls := CopyVertices(offset, vertexCount, fin);
    }
  }
}
