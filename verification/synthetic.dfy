/** Files laid out the way each version's writer lays them out, and the
    round trips through the reader: decoding such a file returns exactly
    the sequences that were written into it. */
module Synthetic {
  import opened Results
  import opened Versions
  import opened Store
  import opened Property
  import opened Projection
  import opened MorphologyHDF5

  /** Everything a legacy writer stores about one cell. */
  datatype Content = Content(
    geometry: Geometry,
    sections: seq<SectionEntry>,
    types: seq<int>,
    perimeters: seq<Float>,
    mitoIds: seq<Float>,
    mitoPathLengths: seq<Float>,
    mitoDiameters: seq<Float>,
    mitoSections: seq<SectionEntry>)

  /** The alignment every writer respects: one diameter per point, one type
      per section, and three aligned mitochondrial point columns. */
  predicate Aligned(c: Content) {
    && |c.geometry.points| == |c.geometry.diameters|
    && |c.sections| == |c.types|
    && |c.mitoIds| == |c.mitoPathLengths| == |c.mitoDiameters|
  }

  function PointsTable(g: Geometry): Table
    requires |g.points| == |g.diameters|
  {
    Dataset([|g.points|, POINT_COLUMNS], EncodeGeometry(g))
  }

  function LegacyStructureTable(c: Content, pad: Float): Table
    requires Aligned(c)
  {
    Dataset([|c.sections|, STRUCTURE_V1_COLUMNS], PackLegacyStructure(c.sections, c.types, pad))
  }

  /** A plain legacy file: /points and /structure, no groups. */
  function V1File(c: Content, pad: Float): (f: H5File)
    requires Aligned(c)
    ensures LegacyLayout(f) && NotV11(f) && Root !in f.groups
  {
    H5File(map[], map[LegacyPoints := PointsTable(c.geometry),
                      LegacyStructure := LegacyStructureTable(c, pad)])
  }

  /** A v1.1 file: the legacy tables plus a metadata group, perimeters and
      the mitochondria group with its two tables. */
  function V11File(family: CellFamily, c: Content, pad: Float): (f: H5File)
    requires Aligned(c)
    ensures V11Marker(f) && FamilyReadable(f) && LegacyLayout(f)
  {
    H5File(
      map[Metadata := map[VersionAttr := UIntAttr([1, 1]), FamilyAttr := UIntAttr([family.code])],
          MitochondriaGroup := map[]],
      map[LegacyPoints := PointsTable(c.geometry),
          LegacyStructure := LegacyStructureTable(c, pad),
          LegacyPerimeters := Dataset([|c.perimeters|], EncodeFloats(c.perimeters)),
          MitoPoints := Dataset([|c.mitoIds|, MITO_POINT_COLUMNS],
                                EncodeMitoPoints(c.mitoIds, c.mitoPathLengths, c.mitoDiameters)),
          MitoStructure := Dataset([|c.mitoSections|, MITO_STRUCTURE_COLUMNS],
                                   EncodeSections(c.mitoSections, pad))])
  }

  /** A v2 file with one repair stage: a root group carrying version (2, 0)
      and the stage's points and structure tables plus the type table. */
  function V2File(g: Geometry, sections: seq<SectionEntry>, types: seq<int>,
                  stage: RepairStage, pad: Float): (f: H5File)
    requires |g.points| == |g.diameters|
    ensures NotV11(f) && Root in f.groups
  {
    H5File(
      map[Root := map[VersionAttr := UIntAttr([2, 0])]],
      map[StagePoints(stage) := PointsTable(g),
          StageStructure(stage) := Dataset([|sections|, STRUCTURE_V2_COLUMNS], EncodeSections(sections, pad)),
          V2Types := Dataset([|types|, 1], EncodeInts(types, pad))])
  }

  lemma V1RoundTrip(c: Content, pad: Float, toSectionId: Float -> uint32)
    requires Aligned(c)
    ensures Load(Some(V1File(c, pad)), toSectionId) ==
      Success(Properties(H5_1, NEURON, c.geometry.points, c.geometry.diameters, [],
                         c.sections, c.types, [], [], [], []))
  {
    var f := V1File(c, pad);
    var h := Header(H5_1, NEURON, Some(LegacyTables(PointsTable(c.geometry), LegacyStructureTable(c, pad))));
    assert CheckVersion(f) == Success(h);
    GeometryRoundTrip(c.geometry);
    LegacyStructureRoundTrip(c.sections, c.types, pad);
    assert ReadPoints(f, h, Repaired) == Success(c.geometry);
    assert ReadSections(f, h, Repaired) == Success(c.sections);
    assert ReadSectionTypes(f, h) == Success(c.types);
  }

  function V11Header(family: CellFamily, c: Content, pad: Float): Header
    requires Aligned(c)
  {
    Header(H5_1_1, family, Some(LegacyTables(PointsTable(c.geometry), LegacyStructureTable(c, pad))))
  }

  lemma V11Resolves(family: CellFamily, c: Content, pad: Float)
    requires Aligned(c)
    ensures CheckVersion(V11File(family, c, pad)) == Success(V11Header(family, c, pad))
  {
  }

  lemma V11OptionalTablesRoundTrip(family: CellFamily, c: Content, pad: Float, toSectionId: Float -> uint32)
    requires Aligned(c)
    ensures var f := V11File(family, c, pad);
      var h := V11Header(family, c, pad);
      && ReadPerimeters(f, h) == Success(c.perimeters)
      && ReadMitochondria(f, h, toSectionId) ==
           Success(Mitochondria(
             MitoPointLevel(ConvertIds(c.mitoIds, toSectionId),
                            c.mitoPathLengths, c.mitoDiameters),
             c.mitoSections))
  {
    var f := V11File(family, c, pad);
    var h := V11Header(family, c, pad);
    FloatsRoundTrip(c.perimeters);
    MitoPointsRoundTrip(c.mitoIds, c.mitoPathLengths, c.mitoDiameters, toSectionId);
    SectionsRoundTrip(c.mitoSections, pad);
    assert PerimetersAvailable(f);
    assert ReadPerimeters(f, h) == Success(c.perimeters);
    assert SubTableAvailable(f, MitochondriaGroup, MitoPoints, 2, MITO_POINT_COLUMNS);
    assert SubTableAvailable(f, MitochondriaGroup, MitoStructure, 2, MITO_STRUCTURE_COLUMNS);
    var pointRows := EncodeMitoPoints(c.mitoIds, c.mitoPathLengths, c.mitoDiameters);
    assert ReadSubTable(f, h, MitochondriaGroup, MitoPoints, H5_1_1, 2, MITO_POINT_COLUMNS) == Success(pointRows);
    assert ReadSubTable(f, h, MitochondriaGroup, MitoStructure, H5_1_1, 2, MITO_STRUCTURE_COLUMNS)
      == Success(EncodeSections(c.mitoSections, pad));
  }

  /** Decoding a v1.1 file returns its content, whatever the family; the
      mitochondrial section ids come back through the float-to-uint32
      conversion. */
  lemma V11RoundTrip(family: CellFamily, c: Content, pad: Float, toSectionId: Float -> uint32)
    requires Aligned(c)
    ensures Load(Some(V11File(family, c, pad)), toSectionId) ==
      Success(Properties(H5_1_1, family, c.geometry.points, c.geometry.diameters, c.perimeters,
                         c.sections, c.types,
                         ConvertIds(c.mitoIds, toSectionId),
                         c.mitoPathLengths, c.mitoDiameters, c.mitoSections))
  {
    var f := V11File(family, c, pad);
    var h := V11Header(family, c, pad);
    V11Resolves(family, c, pad);
    V11OptionalTablesRoundTrip(family, c, pad, toSectionId);
    GeometryRoundTrip(c.geometry);
    LegacyStructureRoundTrip(c.sections, c.types, pad);
    assert ReadPoints(f, h, Repaired) == Success(c.geometry);
    assert ReadSections(f, h, Repaired) == Success(c.sections);
    assert ReadSectionTypes(f, h) == Success(c.types);
  }

  /** Decoding a single-stage v2 file selects that stage and returns the
      points, sections and types written under it. */
  lemma V2RoundTrip(g: Geometry, sections: seq<SectionEntry>, types: seq<int>,
                    stage: RepairStage, pad: Float, toSectionId: Float -> uint32)
    requires |g.points| == |g.diameters|
    ensures Load(Some(V2File(g, sections, types, stage, pad)), toSectionId) ==
      Success(Properties(H5_2, NEURON, g.points, g.diameters, [], sections, types, [], [], [], []))
  {
    var f := V2File(g, sections, types, stage, pad);
    var h := Header(H5_2, NEURON, None);
    assert CheckVersion(f) == Success(h);
    assert SelectRepairStage(f, H5_2) == stage;
    GeometryRoundTrip(g);
    SectionsRoundTrip(sections, pad);
    IntsRoundTrip(types, pad);
    assert ReadPoints(f, h, stage) == Success(g);
    assert ReadSections(f, h, stage) == Success(sections);
    assert ReadSectionTypes(f, h) == Success(types);
  }
}
