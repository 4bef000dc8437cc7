/** Row-order-preserving projections of a table's rows onto the output
    sequences, and the table layouts they invert. Every decoder here maps
    row i of its input to entry i of its output and nothing else. */
module Projection {
  import opened Versions
  import opened Store
  import opened Property

  /** Column count of every points table: x, y, z, diameter. */
  const POINT_COLUMNS: nat := 4
  /** Column count of the legacy structure table: start, type, parent. */
  const STRUCTURE_V1_COLUMNS: nat := 3
  /** Column count of a v2 structure table: start, parent. */
  const STRUCTURE_V2_COLUMNS: nat := 2
  /** Columns the mitochondrial point decoder reads: section id, path length, diameter. */
  const MITO_POINT_COLUMNS: nat := 3
  /** Columns the mitochondrial structure decoder reads: start, parent. */
  const MITO_STRUCTURE_COLUMNS: nat := 2

  datatype Geometry = Geometry(points: seq<Point>, diameters: seq<Float>)

  /** The three mitochondrial per-point sequences, in point order. */
  datatype MitoPointLevel = MitoPointLevel(sectionIds: seq<uint32>, pathLengths: seq<Float>, diameters: seq<Float>)

  /** Splits each row of a points table into a point and a diameter. */
  function DecodeGeometry(rows: seq<seq<Cell>>): (g: Geometry)
    requires RowsAtLeast(rows, POINT_COLUMNS)
    ensures |g.points| == |rows| && |g.diameters| == |rows|
    ensures forall i :: 0 <= i < |rows| ==>
      && g.points[i] == Point(rows[i][0].asFloat, rows[i][1].asFloat, rows[i][2].asFloat)
      && g.diameters[i] == rows[i][3].asFloat
  {
    if rows == [] then Geometry([], [])
    else
      var r := rows[0];
      var rest := DecodeGeometry(rows[1..]);
      Geometry([Point(r[0].asFloat, r[1].asFloat, r[2].asFloat)] + rest.points,
               [r[3].asFloat] + rest.diameters)
  }

  /** Column `j` of every row, read through `view`. */
  function Column<T>(rows: seq<seq<Cell>>, j: nat, view: Cell -> T): (c: seq<T>)
    requires RowsAtLeast(rows, j + 1)
    ensures |c| == |rows|
    ensures forall i :: 0 <= i < |rows| ==> c[i] == view(rows[i][j])
  {
    if rows == [] then [] else [view(rows[0][j])] + Column(rows[1..], j, view)
  }

  /** Pairs column `startCol` with column `parentCol` of every row. */
  function SectionsOf(rows: seq<seq<Cell>>, startCol: nat, parentCol: nat): (s: seq<SectionEntry>)
    requires RowsAtLeast(rows, startCol + 1) && RowsAtLeast(rows, parentCol + 1)
    ensures |s| == |rows|
    ensures forall i :: 0 <= i < |rows| ==>
      s[i] == SectionEntry(rows[i][startCol].asInt, rows[i][parentCol].asInt)
  {
    if rows == [] then []
    else [SectionEntry(rows[0][startCol].asInt, rows[0][parentCol].asInt)]
         + SectionsOf(rows[1..], startCol, parentCol)
  }

  /** Splits each mitochondrial point row into its three aligned values; the
      section id is the float in column 0 converted by `toSectionId`. */
  function DecodeMitoPoints(rows: seq<seq<Cell>>, toSectionId: Float -> uint32): (m: MitoPointLevel)
    requires RowsAtLeast(rows, MITO_POINT_COLUMNS)
    ensures |m.sectionIds| == |rows| && |m.pathLengths| == |rows| && |m.diameters| == |rows|
    ensures forall i :: 0 <= i < |rows| ==>
      && m.sectionIds[i] == toSectionId(rows[i][0].asFloat)
      && m.pathLengths[i] == rows[i][1].asFloat
      && m.diameters[i] == rows[i][2].asFloat
  {
    if rows == [] then MitoPointLevel([], [], [])
    else
      var r := rows[0];
      var rest := DecodeMitoPoints(rows[1..], toSectionId);
      MitoPointLevel([toSectionId(r[0].asFloat)] + rest.sectionIds,
                 [r[1].asFloat] + rest.pathLengths,
                 [r[2].asFloat] + rest.diameters)
  }

  // ---------------------------------------------------------------------
  // Table layouts: what a writer of each table stores, row by row. Cells
  // written from integers carry `pad` as their float view, cells written
  // from floats carry 0 as their integer view; no decoder looks at either.

  function PointRow(p: Point, d: Float): seq<Cell> {
    [Cell(p.x, 0), Cell(p.y, 0), Cell(p.z, 0), Cell(d, 0)]
  }

  function EncodeGeometry(g: Geometry): (rows: seq<seq<Cell>>)
    requires |g.points| == |g.diameters|
    ensures |rows| == |g.points|
    ensures forall i :: 0 <= i < |rows| ==> |rows[i]| == POINT_COLUMNS
  {
    seq(|g.points|, i requires 0 <= i < |g.points| => PointRow(g.points[i], g.diameters[i]))
  }

  function EncodeFloats(xs: seq<Float>): (rows: seq<seq<Cell>>)
    ensures |rows| == |xs|
    ensures forall i :: 0 <= i < |rows| ==> |rows[i]| == 1
  {
    seq(|xs|, i requires 0 <= i < |xs| => [Cell(xs[i], 0)])
  }

  function EncodeInts(xs: seq<int>, pad: Float): (rows: seq<seq<Cell>>)
    ensures |rows| == |xs|
    ensures forall i :: 0 <= i < |rows| ==> |rows[i]| == 1
  {
    seq(|xs|, i requires 0 <= i < |xs| => [Cell(pad, xs[i])])
  }

  /** A v2 structure table or a mitochondrial structure table: start, parent. */
  function EncodeSections(s: seq<SectionEntry>, pad: Float): (rows: seq<seq<Cell>>)
    ensures |rows| == |s|
    ensures forall i :: 0 <= i < |rows| ==> |rows[i]| == STRUCTURE_V2_COLUMNS
  {
    seq(|s|, i requires 0 <= i < |s| => [Cell(pad, s[i].start), Cell(pad, s[i].parent)])
  }

  /** The legacy structure table packs the section type between start and parent. */
  function PackLegacyStructure(s: seq<SectionEntry>, types: seq<int>, pad: Float): (rows: seq<seq<Cell>>)
    requires |s| == |types|
    ensures |rows| == |s|
    ensures forall i :: 0 <= i < |rows| ==> |rows[i]| == STRUCTURE_V1_COLUMNS
  {
    seq(|s|, i requires 0 <= i < |s| =>
      [Cell(pad, s[i].start), Cell(pad, types[i]), Cell(pad, s[i].parent)])
  }

  function EncodeMitoPoints(ids: seq<Float>, pathLengths: seq<Float>, diameters: seq<Float>): (rows: seq<seq<Cell>>)
    requires |ids| == |pathLengths| == |diameters|
    ensures |rows| == |ids|
    ensures forall i :: 0 <= i < |rows| ==> |rows[i]| == MITO_POINT_COLUMNS
  {
    seq(|ids|, i requires 0 <= i < |ids| =>
      [Cell(ids[i], 0), Cell(pathLengths[i], 0), Cell(diameters[i], 0)])
  }

  /** The section ids a decoder derives from stored float ids. */
  function ConvertIds(ids: seq<Float>, toSectionId: Float -> uint32): (r: seq<uint32>)
    ensures |r| == |ids|
  {
    seq(|ids|, i requires 0 <= i < |ids| => toSectionId(ids[i]))
  }

  // ---------------------------------------------------------------------
  // Round trips: each decoder recovers exactly what its layout stored.

  lemma GeometryRoundTrip(g: Geometry)
    requires |g.points| == |g.diameters|
    ensures DecodeGeometry(EncodeGeometry(g)) == g
  {
  }

  lemma FloatsRoundTrip(xs: seq<Float>)
    ensures Column(EncodeFloats(xs), 0, FloatOf) == xs
  {
  }

  lemma IntsRoundTrip(xs: seq<int>, pad: Float)
    ensures Column(EncodeInts(xs, pad), 0, IntOf) == xs
  {
  }

  lemma SectionsRoundTrip(s: seq<SectionEntry>, pad: Float)
    ensures SectionsOf(EncodeSections(s, pad), 0, 1) == s
  {
  }

  /** Selecting columns {0, 2} and column {1} of the packed legacy table
      gives back the sections and the types that were packed. */
  lemma LegacyStructureRoundTrip(s: seq<SectionEntry>, types: seq<int>, pad: Float)
    requires |s| == |types|
    ensures SectionsOf(PackLegacyStructure(s, types, pad), 0, 2) == s
    ensures Column(PackLegacyStructure(s, types, pad), 1, IntOf) == types
  {
  }

  lemma MitoPointsRoundTrip(ids: seq<Float>, pathLengths: seq<Float>, diameters: seq<Float>,
                            toSectionId: Float -> uint32)
    requires |ids| == |pathLengths| == |diameters|
    ensures var m := DecodeMitoPoints(EncodeMitoPoints(ids, pathLengths, diameters), toSectionId);
      && m.sectionIds == ConvertIds(ids, toSectionId)
      && m.pathLengths == pathLengths
      && m.diameters == diameters
  {
  }
}
