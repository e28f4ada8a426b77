/** A geometry file opened for reading, as the loaders see it through an
    input stream: a store of typed fields keyed by byte offset, and a read
    cursor. Byte encodings are abstracted away; field widths are kept.

    A record stored at offset o is a 4-byte record ID at o, a 4-byte vertex
    count N at o + 4, then N vertices of two 8-byte doubles (x then y). */
module GeometryFile {
  import opened Mbr

  /** A 4-byte signed integer of the file. */
  type Int32 = i: int | -0x8000_0000 <= i < 0x8000_0000

  datatype Field = IntField(i: Int32) | DoubleField(d: real)

  const IntSize: int := 4
  const DoubleSize: int := 8
  const HeaderSize: int := IntSize + IntSize
  const VertexSize: int := DoubleSize + DoubleSize

  predicate IntAt(f: map<int, Field>, p: int) {
    p in f && f[p].IntField?
  }

  predicate DoubleAt(f: map<int, Field>, p: int) {
    p in f && f[p].DoubleField?
  }

  /** Where the x and the y of vertex k of the record at o are stored. */
  function XOffset(o: int, k: int): int { o + HeaderSize + VertexSize * k }
  function YOffset(o: int, k: int): int { XOffset(o, k) + DoubleSize }

  /** The vertex count in the header of the record at o. */
  function CountAt(f: map<int, Field>, o: int): Int32
    requires IntAt(f, o + IntSize)
  {
    f[o + IntSize].i
  }

  predicate HasVertices(f: map<int, Field>, o: int, n: int) {
    forall k :: 0 <= k < n ==> DoubleAt(f, XOffset(o, k)) && DoubleAt(f, YOffset(o, k))
  }

  /** A record that can be read in full: its header and as many vertices as
      the header announces. */
  predicate CompleteRecord(f: map<int, Field>, o: int) {
    IntAt(f, o) && IntAt(f, o + IntSize) && HasVertices(f, o, CountAt(f, o))
  }

  function VertexAt(f: map<int, Field>, o: int, k: int): Point
    requires DoubleAt(f, XOffset(o, k)) && DoubleAt(f, YOffset(o, k))
  {
    Point(f[XOffset(o, k)].d, f[YOffset(o, k)].d)
  }

  /** The first n vertices of the record at o, in file order. */
  function StoredVertices(f: map<int, Field>, o: int, n: nat): (vs: seq<Point>)
    requires HasVertices(f, o, n)
    ensures |vs| == n
  {
    if n == 0 then [] else StoredVertices(f, o, n - 1) + [VertexAt(f, o, n - 1)]
  }

  /** Vertex k of the result is the pair stored at vertex slot k. */
  lemma {:induction false} StoredVerticesInFileOrder(f: map<int, Field>, o: int, n: nat, k: nat)
    requires HasVertices(f, o, n) && k < n
    ensures StoredVertices(f, o, n)[k] == VertexAt(f, o, k)
  {
    if k < n - 1 {
      StoredVerticesInFileOrder(f, o, n - 1, k);
    }
  }

  /** The vertices of a complete record: none when its count is not positive. */
  function RecordVertices(f: map<int, Field>, o: int): seq<Point>
    requires CompleteRecord(f, o)
  {
    if CountAt(f, o) <= 0 then [] else StoredVertices(f, o, CountAt(f, o))
  }

  /** The offset just past the last vertex of a complete record. */
  function RecordEnd(f: map<int, Field>, o: int): int
    requires CompleteRecord(f, o)
  {
    XOffset(o, if CountAt(f, o) <= 0 then 0 else CountAt(f, o))
  }

  /** An ifstream over a geometry file. */
  class InputStream {
    const fields: map<int, Field>
    var pos: int

    constructor (fields: map<int, Field>)
      ensures this.fields == fields && pos == 0
    {
      this.fields := fields;
      pos := 0;
    }

    /** tellg */
    method TellG() returns (p: int)
      ensures p == pos
    {
      p := pos;
    }

    /** seekg(delta, cur) */
    method SeekCur(delta: int)
      modifies this
      ensures pos == old(pos) + delta
    {
      pos := pos + delta;
    }

    /** read of sizeof(int) bytes into an int */
    method ReadInt() returns (v: Int32)
      requires IntAt(fields, pos)
      modifies this
      ensures v == fields[old(pos)].i && pos == old(pos) + IntSize
    {
      v := fields[pos].i;
      pos := pos + IntSize;
    }

    /** read of sizeof(double) bytes into a double */
    method ReadDouble() returns (v: real)
      requires DoubleAt(fields, pos)
      modifies this
      ensures v == fields[old(pos)].d && pos == old(pos) + DoubleSize
    {
      v := fields[pos].d;
      pos := pos + DoubleSize;
    }
  }
}
