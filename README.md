# Refinement step of the APRIL spatial join, in Dafny

This project models the refinement step of the APRIL filter-refine spatial
join (`APRIL/join_geometry_refinement.cpp`). Given two candidate record IDs,
that step loads each geometry's vertices from an on-disk geometry file
through an offset map. It then either asks the planar geometry library for a
boolean predicate, or has it compute a DE-9IM intersection-matrix code and
classifies that code into one of six relation categories.

The model covers four parts:

- **Mask matcher** (module `De9im`, `de9im.dfy`). `compareDe9imChars` is a
  function. `compareMasks` is a method with a loop that stops at the first
  failing position, proved equal to the predicate `MatchesMask`. Both are
  compared with the pattern semantics of section 6.1.15 of OGC Simple
  Features Access Part 1 (ISO 19125-1).
- **Relation classifier** (module `Classifier`, `classifier.dfy`).
  `refineFindRelation` takes the code string and calls `CompareMasks` in the
  source's order. It is proved equal to `Classify`, an independent rule-table
  definition: an ordered list of (mask set, category) rules where the first
  match wins and OVERLAP is the fallback.
- **Rectangles** (module `Mbr`, `mbr.dfy`). `getCMBR` is proved to hold
  exactly the points both rectangles share. `RunningMbr` specifies the
  loader's running min/max, which starts from the sentinel
  `(INT_MAX, INT_MAX)`–`(-INT_MAX, -INT_MAX)`. It is inverted exactly when
  there is no vertex.
- **Record loader** (modules `GeometryFile` and `Loader`). The `ifstream` is
  a class with a read cursor over a map from byte offset to a typed field
  (a 4-byte int or an 8-byte double). The three loaders are methods that
  seek, read the header and loop over the vertices. Their results are tied to
  `RecordVertices` and `RunningMbr`.

Notes on behaviour, where the code decides:

- The rectangle sentinel is `±numeric_limits<int>::max()`, not ±infinity.
  The running rectangle is the minimum bounding rectangle at least when
  every coordinate lies within ±INT_MAX (`Mbr.RunningMbrIsLeast`). When the
  smallest x or y lies above INT_MAX, or the largest below -INT_MAX, the
  sentinel shows through (`Mbr.SentinelClampsFarVertex`), though the
  rectangle still holds every vertex.
- A digit in a mask never matches, not even the same digit. A `*` in the
  code matches any mask character. So the property "MEET implies an empty
  interior intersection" holds only for codes made of `0`, `1`, `2` and `F`,
  which are the codes the geometry library produces
  (`Classifier.MeetWithWildcardInterior`).
- `loadPolygonGeometry` calls `vertices.reserve(vertexCount)` before its
  loop. The model reads `vertices` as a `std::vector`, whose declaration is
  in a header that is not part of this model. A negative count converts to a
  size above `max_size()`, so `reserve` throws `std::length_error`. The model
  returns `LengthError` there. For a count of zero the rectangle is the
  inverted sentinel. The BOOST loaders have no `reserve` and return no
  vertices for a count that is not positive.
- The seek `seekg(offset - tellg(), cur)` lands on `offset` whatever the
  previous position was. `SeekAndReadHeader` proves this.
- The record ID read from the header is never checked against the requested
  ID.

## Model

| member | source | states |
|---|---|---|
| De9im.CompareDe9imChars | APRIL/join_geometry_refinement.cpp:190-201 | only a mask character 'T' or 'F' can match |
| De9im.CompareDe9imCharsAgreesOnTF | APRIL/join_geometry_refinement.cpp:190-205 | on dimension values, with '*' handled first, the position test agrees with the OGC pattern semantics for 'T', 'F' and '*' |
| De9im.DigitMaskNeverMatches | APRIL/join_geometry_refinement.cpp:190-201 | a digit in the mask never matches, not even the same digit, which the OGC semantics would match |
| De9im.CompareMasks | APRIL/join_geometry_refinement.cpp:203-212 | returns true exactly when each of positions 0..8 has '*' in the code, '*' in the mask, or a successful character comparison (the body, like the source, returns at the first failing position) |
| De9im.MatchesMaskAgreesWithOgc | APRIL/join_geometry_refinement.cpp:203-212 | for library codes and digit-free masks, the match is the OGC pattern match at every position |
| De9im.AllWildcardMatches | APRIL/join_geometry_refinement.cpp:203-212 | the mask `*********` matches every code of nine or more characters |
| De9im.MatchesMaskReadsNinePositions | APRIL/join_geometry_refinement.cpp:204-205 | the match depends only on the first nine characters of the code |
| De9im.SubsumedMaskMatches | APRIL/join_geometry_refinement.cpp:203-212 | a code matching a mask also matches that mask with some positions turned into '*' |
| Classifier.RefineFindRelation | APRIL/join_geometry_refinement.cpp:214-245 | the source's if-chain of compareMasks calls returns the category of the first matching rule of the priority table |
| Classifier.ClassifyPriority | APRIL/join_geometry_refinement.cpp:218-245 | each category is returned exactly when its masks match and no earlier category's do; OVERLAP exactly when none of the seven masks matches |
| Classifier.DisjointAlwaysWins | APRIL/join_geometry_refinement.cpp:218-221 | a code matching `FF*FF****` is always DISJOINT |
| Classifier.EqualShadowsContainment | APRIL/join_geometry_refinement.cpp:223-236 | every code matching the equal mask matches both containment masks; it is EQUAL, not R_CONTAINS_S, whenever it does not also match the disjoint mask, which a library code never does |
| Classifier.OrderMatters | APRIL/join_geometry_refinement.cpp:218-231 | concrete codes that match a later rule's mask yet get an earlier category |
| Classifier.ContainmentNeedsInteriors | APRIL/join_geometry_refinement.cpp:223-236 | EQUAL, R_CONTAINS_S and S_CONTAINS_R imply code[0] != 'F' |
| Classifier.MeetShape | APRIL/join_geometry_refinement.cpp:238-243 | MEET implies no match of the disjoint mask; on a library code it also implies code[0] == 'F' |
| Classifier.MeetWithWildcardInterior | APRIL/join_geometry_refinement.cpp:238-243 | a code with '*' at position 0 can still be MEET |
| Classifier.ClassifyApartSquares | APRIL/join_geometry_refinement.cpp:218-221 | the code of two squares apart is DISJOINT |
| Classifier.ClassifyRContainsSquare | APRIL/join_geometry_refinement.cpp:228-231 | the code of a square strictly inside R is R_CONTAINS_S, not EQUAL |
| Classifier.ClassifySContainsSquare | APRIL/join_geometry_refinement.cpp:233-236 | the code of R strictly inside S is S_CONTAINS_R |
| Classifier.ClassifyTouchingSquares | APRIL/join_geometry_refinement.cpp:238-243 | the code of two squares sharing an edge is MEET |
| Classifier.ClassifyOverlappingSquares | APRIL/join_geometry_refinement.cpp:214-245 | the code of two partly overlapping squares is OVERLAP |
| Mbr.GetCMBR | APRIL/join_geometry_refinement.cpp:143-150 | the common rectangle holds exactly the points both rectangles hold |
| Mbr.GetCMBRCommutes | APRIL/join_geometry_refinement.cpp:143-150 | the common rectangle does not depend on the order of the arguments |
| Mbr.GetCMBRSelf | APRIL/join_geometry_refinement.cpp:143-150 | the common rectangle of a rectangle with itself is that rectangle |
| Mbr.GetCMBRInvertedIffApart | APRIL/join_geometry_refinement.cpp:143-150 | the common rectangle is inverted exactly when the two rectangles share no point |
| Mbr.Extend | APRIL/join_geometry_refinement.cpp:75-78 | one min/max step gives a rectangle that holds the new vertex and every point the old one held, and is not inverted |
| Mbr.RunningMbr | APRIL/join_geometry_refinement.cpp:51-85 | the rectangle folded from the sentinel over the vertices in order is inverted exactly when there is no vertex |
| Mbr.RunningMbrEmpty | APRIL/join_geometry_refinement.cpp:51-54 | with no vertex the rectangle is the inverted sentinel |
| Mbr.RunningMbrBounds | APRIL/join_geometry_refinement.cpp:68-85 | the running rectangle holds every vertex read |
| Mbr.RunningMbrIsLeast | APRIL/join_geometry_refinement.cpp:51-85 | for vertices within ±INT_MAX, the running rectangle lies inside every rectangle that holds them all |
| Mbr.SentinelClampsFarVertex | APRIL/join_geometry_refinement.cpp:51-54 | a vertex beyond INT_MAX leaves the sentinel as the minimum |
| GeometryFile.StoredVerticesInFileOrder | APRIL/join_geometry_refinement.cpp:68-72 | vertex k of the loaded sequence is the k-th (x, y) pair stored after the header |
| GeometryFile.InputStream.TellG | APRIL/join_geometry_refinement.cpp:60 | `tellg` returns the current read position |
| GeometryFile.InputStream.SeekCur | APRIL/join_geometry_refinement.cpp:60 | `seekg(delta, cur)` moves the read position by delta |
| GeometryFile.InputStream.ReadInt | APRIL/join_geometry_refinement.cpp:62-64 | reading an int gives the 4-byte integer field at the position and advances by 4 |
| GeometryFile.InputStream.ReadDouble | APRIL/join_geometry_refinement.cpp:69-70 | reading a double gives the 8-byte coordinate field at the position and advances by 8 |
| Loader.SeekAndReadHeader | APRIL/join_geometry_refinement.cpp:60-64 | the relative seek lands on the record's offset from any position; the count returned is the header's |
| Loader.LoadPolygonGeometry | APRIL/join_geometry_refinement.cpp:45-89 | an absent ID gives an empty polygon with the rectangle unwritten and the stream untouched; a negative count gives the length error; otherwise the stored vertices in file order with the running rectangle, which holds them all and is the sentinel when there are none |
| Loader.CopyVertices | APRIL/join_geometry_refinement.cpp:106-111 | appends the record's pairs in file order, none for a count that is not positive, and leaves the cursor past the record |
| Loader.LoadPolygonGeometryBoost | APRIL/join_geometry_refinement.cpp:91-116 | an absent ID gives an empty ring; otherwise the outer ring is the stored vertices in file order |
| Loader.LoadLinestringGeometryBoost | APRIL/join_geometry_refinement.cpp:118-140 | an absent ID gives an empty linestring; otherwise the stored vertices in file order |

## Left out

- Loader.LoadPolygonGeometryBoost: does not apply `boost::geometry::correct`, which closes and orients the ring. It is Boost library code, and the result is the ring as read.
- Classifier.RefineFindRelation: takes the DE-9IM code as its input. `createMask` (lines 185-188) computes the code with `boost::geometry::relation`, which is library code.
- The predicate entry points `refinementWithIDsLinestring`, `refinementWithIDs`, `refinementWithinWithIDs` and `refinement_DE9IM_WithIDs` (lines 152-183, 285-320) are left out. Each one loads two geometries and calls a Boost predicate (`intersects`, `covered_by`, `relation`), and the first three add Boost's `num_points` to the counters `refinementCandidatesR/S`. Those counters are declared in a header that is not part of this model.
- The Boost `de9im::mask` globals (lines 29-41) and the unused mask arrays (lines 5-9, 11-14, 20-23) are left out. Nothing in the modelled code uses them.
- The commented-out code (lines 251-282, 290-316) is left out.
- Byte decoding and floating point are left out. The file is a map from offset to typed field, and coordinates are reals, so there is no rounding, NaN or infinity.
- Stream failure is left out. The loaders require a complete record at the offset the map gives. The source never checks the stream state after a short read, so what happens on a truncated file is decided by the I/O library.
- The Polygon constructor lives in a header that is not part of this model. The rectangle it leaves on a polygon is therefore modelled as `None`, meaning "not written by the loader".
- `getCMBR` reads only the `mbr` fields of its two polygons, so `Mbr.GetCMBR` takes the two rectangles directly.
- Concurrency: there is none in this code. The shared counters are left out together with the entry points.
