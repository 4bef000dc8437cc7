/** The HDF5 morphology reader of src/plugin/morphologyHDF5.cpp: version
    resolution, repair-stage selection and the six decoding steps that fill
    a Properties bundle, in the order `load` runs them. Each step that the
    source writes as "try to open, catch the exception" is a lookup here,
    and each exception that escapes `load` is a Failure. */
module MorphologyHDF5 {
  import opened Results
  import opened Versions
  import opened Store
  import opened Property
  import opened Projection

  /** The kinds of error that abort a decode. */
  datatype Error =
    | OpenFailed                        // the container could not be opened
    | UnknownFormat                     // no layout fingerprint matched
    | MetadataUnreadable                // the metadata group lacks a readable attribute
    | MissingDataset(path: DatasetPath) // a mandatory dataset is absent
    | BadShape(path: DatasetPath)       // a mandatory dataset has the wrong dataspace
    | GliaDataMissing                   // a glial cell lacks perimeters or mitochondria

  /** The legacy /points and /structure datasets, kept open by the legacy
      resolution and read again by the point and section decoders. */
  datatype LegacyTables = LegacyTables(points: Table, structure: Table)

  /** What version resolution fixes for the rest of the decode. */
  datatype Header = Header(version: MorphologyVersion, family: CellFamily, legacy: Option<LegacyTables>)

  predicate LegacyShaped(t: LegacyTables) {
    Is2D(t.points, POINT_COLUMNS) && Is2D(t.structure, STRUCTURE_V1_COLUMNS)
  }

  /** The state resolution leaves behind: a v2 header holds no legacy
      tables, a v1 or v1.1 header holds both, already shape-checked. */
  predicate Resolved(h: Header) {
    match h.legacy
    case None => h.version == H5_2
    case Some(t) => (h.version == H5_1 || h.version == H5_1_1) && LegacyShaped(t)
  }

  // ---------------------------------------------------------------------
  // Fingerprints of the three layouts, stated on the file alone.

  /** The file has the /points and /structure datasets with legacy shapes. */
  predicate LegacyLayout(f: H5File) {
    && LegacyPoints in f.datasets && Is2D(f.datasets[LegacyPoints], POINT_COLUMNS)
    && LegacyStructure in f.datasets && Is2D(f.datasets[LegacyStructure], STRUCTURE_V1_COLUMNS)
  }

  /** The metadata group exists and its version attribute is exactly (1, 1). */
  predicate V11Marker(f: H5File) {
    && Metadata in f.groups
    && VersionAttr in f.groups[Metadata]
    && f.groups[Metadata][VersionAttr] == UIntAttr([1, 1])
  }

  /** The file positively is not v1.1: no metadata group, or a readable
      version pair other than (1, 1). */
  predicate NotV11(f: H5File) {
    || Metadata !in f.groups
    || (&& VersionAttr in f.groups[Metadata]
        && Readable(f.groups[Metadata][VersionAttr], 2)
        && f.groups[Metadata][VersionAttr].values != [1, 1])
  }

  /** The family attribute of the metadata group holds one unsigned integer. */
  predicate FamilyReadable(f: H5File)
    requires Metadata in f.groups
  {
    FamilyAttr in f.groups[Metadata] && Readable(f.groups[Metadata][FamilyAttr], 1)
  }

  // ---------------------------------------------------------------------
  // Version resolution.

  /** The error a mandatory dataset that fails its shape check raises: the
      dataset is named as missing when absent, as misshaped otherwise. */
  function TableError(f: H5File, path: DatasetPath): Error {
    if path in f.datasets then BadShape(path) else MissingDataset(path)
  }

  /** Opens a mandatory dataset and checks it is 2-D with `columns` columns. */
  function OpenTable(f: H5File, path: DatasetPath, columns: nat): (r: Result<Table, Error>)
    ensures r.Success? <==> path in f.datasets && Is2D(f.datasets[path], columns)
    ensures r.Success? ==> r.value == f.datasets[path]
    ensures r.Failure? ==> r.error == (if path in f.datasets then BadShape(path) else MissingDataset(path))
  {
    if path !in f.datasets then Failure(MissingDataset(path))
    else if !Is2D(f.datasets[path], columns) then Failure(BadShape(path))
    else Success(f.datasets[path])
  }

  /** The legacy layout check: points first, then structure; the first
      dataset that is absent or misshaped is the one the error names. */
  function ResolveV1(f: H5File): (r: Result<LegacyTables, Error>)
    ensures r.Success? <==> LegacyLayout(f)
    ensures r.Success? ==> r.value == LegacyTables(f.datasets[LegacyPoints], f.datasets[LegacyStructure])
    ensures r.Success? ==> LegacyShaped(r.value)
    ensures r.Failure? ==> r.error.MissingDataset? || r.error.BadShape?
    ensures r.Failure? ==>
      (r.error.path == LegacyPoints <==> !(LegacyPoints in f.datasets && Is2D(f.datasets[LegacyPoints], POINT_COLUMNS)))
    ensures r.Failure? ==>
      r.error == (if LegacyPoints in f.datasets && Is2D(f.datasets[LegacyPoints], POINT_COLUMNS)
                  then TableError(f, LegacyStructure) else TableError(f, LegacyPoints))
  {
    var points :- OpenTable(f, LegacyPoints, POINT_COLUMNS);
    var structure :- OpenTable(f, LegacyStructure, STRUCTURE_V1_COLUMNS);
    Success(LegacyTables(points, structure))
  }

  /** The v1.1 probe. Success(None) means "not v1.1" and lets resolution go
      on; a metadata group with an unreadable attribute is fatal; a v1.1
      file must also pass the legacy layout check, whose error escapes. */
  function ReadV11Metadata(f: H5File): (r: Result<Option<Header>, Error>)
    ensures r == Success(None) <==> NotV11(f)
    ensures r.Success? && r.value.Some? <==>
      V11Marker(f) && FamilyReadable(f) && LegacyLayout(f)
    ensures r.Success? && r.value.Some? ==>
      var h := r.value.value;
      && h.version == H5_1_1
      && h.family == CellFamily(f.groups[Metadata][FamilyAttr].values[0])
      && h.legacy == Some(LegacyTables(f.datasets[LegacyPoints], f.datasets[LegacyStructure]))
      && Resolved(h)
    ensures r.Failure? ==> Metadata in f.groups
    ensures r.Failure? && r.error != MetadataUnreadable ==>
      V11Marker(f) && FamilyReadable(f) && r.error == ResolveV1(f).error
    ensures V11Marker(f) && FamilyReadable(f) && !LegacyLayout(f) ==> r == Failure(ResolveV1(f).error)
  {
    if Metadata !in f.groups then Success(None)
    else
      var attrs := f.groups[Metadata];
      if VersionAttr !in attrs || !Readable(attrs[VersionAttr], 2) then Failure(MetadataUnreadable)
      else
        var version := attrs[VersionAttr].values;
        if version[0] != 1 || version[1] != 1 then Success(None)
        else if FamilyAttr !in attrs || !Readable(attrs[FamilyAttr], 1) then Failure(MetadataUnreadable)
        else
          var family := CellFamily(attrs[FamilyAttr].values[0]);
          var tables :- ResolveV1(f);
          Success(Some(Header(H5_1_1, family, Some(tables))))
  }

  /** The v2 probe: a root group whose version attribute reads as (2, 0)
      is v2, and so is a root group with any other attribute or none. */
  function ReadV2Metadata(f: H5File): (found: bool)
    ensures found <==> Root in f.groups
  {
    if && Root in f.groups
       && VersionAttr in f.groups[Root]
       && f.groups[Root][VersionAttr] == UIntAttr([2, 0])
    then true
    else Root in f.groups
  }

  /** Version resolution, first match wins: v1.1 metadata, then the v2 root
      group, then the plain legacy layout; if that fails too the file has an
      unknown format, whatever the legacy check's own error was. */
  function CheckVersion(f: H5File): (r: Result<Header, Error>)
    ensures r.Success? ==> Resolved(r.value) && IsKnown(r.value.version)
    ensures r.Success? ==> (r.value.version == H5_1_1 <==> V11Marker(f))
    ensures r.Success? ==> (r.value.version == H5_2 <==> NotV11(f) && Root in f.groups)
    ensures r.Success? ==> (r.value.version == H5_1 <==> NotV11(f) && Root !in f.groups)
    ensures r.Success? && r.value.version != H5_1_1 ==> r.value.family == NEURON
    ensures r == Failure(UnknownFormat) <==> NotV11(f) && Root !in f.groups && !LegacyLayout(f)
    ensures r.Failure? && r.error != UnknownFormat ==> Metadata in f.groups && !NotV11(f)
    ensures r.Failure? && r.error != UnknownFormat ==> ReadV11Metadata(f) == Failure(r.error)
    ensures V11Marker(f) && FamilyReadable(f) && LegacyLayout(f) ==> r.Success?
    ensures r.Success? && r.value.version == H5_1_1 ==>
      && Metadata in f.groups && FamilyReadable(f)
      && r.value.family == CellFamily(f.groups[Metadata][FamilyAttr].values[0])
    ensures r.Success? && r.value.legacy.Some? ==>
      && LegacyLayout(f)
      && r.value.legacy.value == LegacyTables(f.datasets[LegacyPoints], f.datasets[LegacyStructure])
  {
    var v11 :- ReadV11Metadata(f);
    if v11.Some? then Success(v11.value)
    else if ReadV2Metadata(f) then Success(Header(H5_2, NEURON, None))
    else
      match ResolveV1(f)
      case Success(tables) => Success(Header(H5_1, NEURON, Some(tables)))
      case Failure(_) => Failure(UnknownFormat)
  }

  // ---------------------------------------------------------------------
  // Repair-stage selection.

  predicate StagePresent(f: H5File, stage: RepairStage) {
    StagePoints(stage) in f.datasets
  }

  /** Index of the first candidate whose points dataset exists, or
      |candidates| when none does. */
  function FirstPresent(f: H5File, candidates: seq<RepairStage>): (k: nat)
    ensures k <= |candidates|
    ensures forall j :: 0 <= j < k ==> !StagePresent(f, candidates[j])
    ensures k < |candidates| ==> StagePresent(f, candidates[k])
  {
    if candidates == [] then 0
    else if StagePresent(f, candidates[0]) then 0
    else 1 + FirstPresent(f, candidates[1..])
  }

  /** Outside v2 the stage keeps its initial value; in v2 it is the first of
      repaired, unraveled, raw whose points exist, and repaired otherwise. */
  function SelectRepairStage(f: H5File, version: MorphologyVersion): (s: RepairStage)
    ensures version != H5_2 ==> s == Repaired
    ensures s == Unraveled <==>
      version == H5_2 && !StagePresent(f, Repaired) && StagePresent(f, Unraveled)
    ensures s == Raw <==>
      version == H5_2 && !StagePresent(f, Repaired) && !StagePresent(f, Unraveled) && StagePresent(f, Raw)
    ensures version == H5_2 && (exists t :: StagePresent(f, t)) ==> StagePresent(f, s)
  {
    if version != H5_2 then Repaired
    else
      var k := FirstPresent(f, STAGE_PRIORITY);
      assert STAGE_PRIORITY[0] == Repaired && STAGE_PRIORITY[1] == Unraveled && STAGE_PRIORITY[2] == Raw;
      assert k == |STAGE_PRIORITY| ==>
        forall t :: !StagePresent(f, t) by {
          if k == |STAGE_PRIORITY| {
            forall t ensures !StagePresent(f, t) {
              assert t == STAGE_PRIORITY[0] || t == STAGE_PRIORITY[1] || t == STAGE_PRIORITY[2];
            }
          }
        }
      if k < |STAGE_PRIORITY| then STAGE_PRIORITY[k] else Repaired
  }

  // ---------------------------------------------------------------------
  // The mandatory tables.

  /** Points and diameters: from the stage's points table in v2 (which must
      exist and be N x 4), from the already checked /points otherwise. */
  function ReadPoints(f: H5File, h: Header, stage: RepairStage): (r: Result<Geometry, Error>)
    requires Resolved(h)
    ensures h.version != H5_2 ==> r.Success?
    ensures h.version == H5_2 ==>
      (r.Success? <==> StagePoints(stage) in f.datasets && Is2D(f.datasets[StagePoints(stage)], POINT_COLUMNS))
    ensures r.Failure? ==> r.error == TableError(f, StagePoints(stage))
    ensures r.Success? ==>
      var rows := if h.version == H5_2 then f.datasets[StagePoints(stage)].rows else h.legacy.value.points.rows;
      && |r.value.points| == |rows| && |r.value.diameters| == |rows|
      && forall i :: 0 <= i < |rows| ==>
           && r.value.points[i] == Point(rows[i][0].asFloat, rows[i][1].asFloat, rows[i][2].asFloat)
           && r.value.diameters[i] == rows[i][3].asFloat
  {
    if h.version == H5_2 then
      var t :- OpenTable(f, StagePoints(stage), POINT_COLUMNS);
      Is2DRows(t, POINT_COLUMNS);
      Success(DecodeGeometry(t.rows))
    else
      Is2DRows(h.legacy.value.points, POINT_COLUMNS);
      Success(DecodeGeometry(h.legacy.value.points.rows))
  }

  /** Section (start, parent) pairs: the 2-column stage structure table in
      v2, columns 0 and 2 of the legacy table otherwise. */
  function ReadSections(f: H5File, h: Header, stage: RepairStage): (r: Result<seq<SectionEntry>, Error>)
    requires Resolved(h)
    ensures h.version != H5_2 ==> r.Success?
    ensures h.version == H5_2 ==>
      (r.Success? <==> StageStructure(stage) in f.datasets
                       && Is2D(f.datasets[StageStructure(stage)], STRUCTURE_V2_COLUMNS))
    ensures r.Failure? ==> r.error == TableError(f, StageStructure(stage))
    ensures r.Success? && h.version == H5_2 ==>
      var rows := f.datasets[StageStructure(stage)].rows;
      |r.value| == |rows| && forall i :: 0 <= i < |rows| ==>
        r.value[i] == SectionEntry(rows[i][0].asInt, rows[i][1].asInt)
    ensures r.Success? && h.version != H5_2 ==>
      var rows := h.legacy.value.structure.rows;
      |r.value| == |rows| && forall i :: 0 <= i < |rows| ==>
        r.value[i] == SectionEntry(rows[i][0].asInt, rows[i][2].asInt)
  {
    if h.version == H5_2 then
      var t :- OpenTable(f, StageStructure(stage), STRUCTURE_V2_COLUMNS);
      Is2DRows(t, STRUCTURE_V2_COLUMNS);
      Success(SectionsOf(t.rows, 0, 1))
    else
      Is2DRows(h.legacy.value.structure, STRUCTURE_V1_COLUMNS);
      Success(SectionsOf(h.legacy.value.structure.rows, 0, 2))
  }

  /** Section types: the N x 1 type table in v2, whose length is not
      compared with the section count; column 1 of the legacy table otherwise. */
  function ReadSectionTypes(f: H5File, h: Header): (r: Result<seq<int>, Error>)
    requires Resolved(h)
    ensures h.version != H5_2 ==> r.Success?
    ensures h.version == H5_2 ==>
      (r.Success? <==> V2Types in f.datasets && Is2D(f.datasets[V2Types], 1))
    ensures r.Failure? ==> r.error == TableError(f, V2Types)
    ensures r.Success? && h.version == H5_2 ==>
      var rows := f.datasets[V2Types].rows;
      |r.value| == |rows| && forall i :: 0 <= i < |rows| ==> r.value[i] == rows[i][0].asInt
    ensures r.Success? && h.version != H5_2 ==>
      var rows := h.legacy.value.structure.rows;
      |r.value| == |rows| && forall i :: 0 <= i < |rows| ==> r.value[i] == rows[i][1].asInt
  {
    if h.version == H5_2 then
      var t :- OpenTable(f, V2Types, 1);
      Is2DRows(t, 1);
      Success(Column(t.rows, 0, IntOf))
    else
      Is2DRows(h.legacy.value.structure, STRUCTURE_V1_COLUMNS);
      Success(Column(h.legacy.value.structure.rows, 1, IntOf))
  }

  // ---------------------------------------------------------------------
  // The optional tables and their family-gated failure policy.

  /** A failed optional read aborts the decode for a glial cell and leaves
      the output at `absent` for any other family. */
  function Tolerate<T>(attempt: Option<T>, family: CellFamily, absent: T): (r: Result<T, Error>)
    ensures r.Failure? <==> attempt.None? && family.IsGlia()
    ensures r.Failure? ==> r.error == GliaDataMissing
    ensures r.Success? && attempt.Some? ==> r.value == attempt.value
    ensures r.Success? && attempt.None? ==> r.value == absent
  {
    match attempt
    case Some(v) => Success(v)
    case None => if family.IsGlia() then Failure(GliaDataMissing) else Success(absent)
  }

  predicate PerimetersAvailable(f: H5File) {
    LegacyPerimeters in f.datasets && |f.datasets[LegacyPerimeters].dims| == 1
  }

  /** Perimeters exist only in v1.1 and come from the 1-D /perimeters table. */
  function ReadPerimeters(f: H5File, h: Header): (r: Result<seq<Float>, Error>)
    ensures h.version != H5_1_1 ==> r == Success([])
    ensures h.version == H5_1_1 ==>
      (r.Failure? <==> h.family.IsGlia() && !PerimetersAvailable(f))
    ensures r.Failure? ==> r.error == GliaDataMissing
    ensures r.Success? && !PerimetersAvailable(f) ==> r.value == []
    ensures r.Success? && h.version == H5_1_1 && PerimetersAvailable(f) ==>
      var rows := f.datasets[LegacyPerimeters].rows;
      |r.value| == |rows| && forall i :: 0 <= i < |rows| ==> r.value[i] == rows[i][0].asFloat
  {
    if h.version != H5_1_1 then Success([])
    else
      var attempt :=
        if PerimetersAvailable(f) then Some(Column(f.datasets[LegacyPerimeters].rows, 0, FloatOf))
        else None;
      Tolerate(attempt, h.family, [])
  }

  /** What the optional-table read accepts: the group and the dataset exist,
      the dataspace has `rank` dimensions and every row it holds has at
      least `minColumns` cells (a table with no rows is never too narrow). */
  predicate SubTableAvailable(f: H5File, group: GroupPath, path: DatasetPath, rank: nat, minColumns: nat) {
    && group in f.groups
    && path in f.datasets
    && |f.datasets[path].dims| == rank
    && RowsAtLeast(f.datasets[path].rows, minColumns)
  }

  /** The generic optional-table read: nothing happens outside `version`;
      otherwise an unavailable table follows the family policy. Unlike the
      source, which checks the rank alone, each row must also be wide
      enough for the columns its caller indexes. */
  function ReadSubTable(f: H5File, h: Header, group: GroupPath, path: DatasetPath,
                        version: MorphologyVersion, rank: nat, minColumns: nat): (r: Result<seq<seq<Cell>>, Error>)
    ensures h.version != version ==> r == Success([])
    ensures h.version == version ==>
      (r.Failure? <==> h.family.IsGlia() && !SubTableAvailable(f, group, path, rank, minColumns))
    ensures r.Failure? ==> r.error == GliaDataMissing
    ensures r.Success? ==> RowsAtLeast(r.value, minColumns)
    ensures r.Success? ==>
      r.value == (if h.version == version && SubTableAvailable(f, group, path, rank, minColumns)
                  then f.datasets[path].rows else [])
  {
    if h.version != version then Success([])
    else
      var attempt :=
        if SubTableAvailable(f, group, path, rank, minColumns) then Some(f.datasets[path].rows) else None;
      Tolerate(attempt, h.family, [])
  }

  /** The optional-table read as the source writes it: only the rank is
      checked, so a table narrower than its caller expects is accepted. */
  function ReadSubTableAsWritten(f: H5File, h: Header, group: GroupPath, path: DatasetPath,
                                 version: MorphologyVersion, rank: nat): (r: Result<seq<seq<Cell>>, Error>)
    ensures h.version != version ==> r == Success([])
    ensures h.version == version ==>
      (r.Failure? <==> h.family.IsGlia() && !SubTableAvailable(f, group, path, rank, 0))
    ensures r.Failure? ==> r.error == GliaDataMissing
    ensures r.Success? ==>
      r.value == (if h.version == version && SubTableAvailable(f, group, path, rank, 0)
                  then f.datasets[path].rows else [])
  {
    ReadSubTable(f, h, group, path, version, rank, 0)
  }

  datatype Mitochondria = Mitochondria(points: MitoPointLevel, sections: seq<SectionEntry>)

  /** Mitochondria exist only in v1.1: a 2-D point table giving three aligned
      sequences and a 2-D structure table giving one section per row; each
      read follows the family policy, the point table is read first. */
  function ReadMitochondria(f: H5File, h: Header, toSectionId: Float -> uint32): (r: Result<Mitochondria, Error>)
    ensures h.version != H5_1_1 ==> r == Success(Mitochondria(MitoPointLevel([], [], []), []))
    ensures h.version == H5_1_1 ==>
      (r.Failure? <==>
        && h.family.IsGlia()
        && !(&& SubTableAvailable(f, MitochondriaGroup, MitoPoints, 2, MITO_POINT_COLUMNS)
             && SubTableAvailable(f, MitochondriaGroup, MitoStructure, 2, MITO_STRUCTURE_COLUMNS)))
    ensures r.Failure? ==> r.error == GliaDataMissing
    ensures r.Success? ==>
      var m := r.value.points;
      |m.sectionIds| == |m.pathLengths| == |m.diameters|
    ensures r.Success? && !SubTableAvailable(f, MitochondriaGroup, MitoPoints, 2, MITO_POINT_COLUMNS) ==>
      r.value.points == MitoPointLevel([], [], [])
    ensures r.Success? && !SubTableAvailable(f, MitochondriaGroup, MitoStructure, 2, MITO_STRUCTURE_COLUMNS) ==>
      r.value.sections == []
    ensures r.Success? && h.version == H5_1_1 && SubTableAvailable(f, MitochondriaGroup, MitoPoints, 2, MITO_POINT_COLUMNS) ==>
      var rows := f.datasets[MitoPoints].rows;
      var m := r.value.points;
      && |m.sectionIds| == |rows|
      && forall i :: 0 <= i < |rows| ==>
           && m.sectionIds[i] == toSectionId(rows[i][0].asFloat)
           && m.pathLengths[i] == rows[i][1].asFloat
           && m.diameters[i] == rows[i][2].asFloat
    ensures r.Success? && h.version == H5_1_1 && SubTableAvailable(f, MitochondriaGroup, MitoStructure, 2, MITO_STRUCTURE_COLUMNS) ==>
      var rows := f.datasets[MitoStructure].rows;
      |r.value.sections| == |rows| && forall i :: 0 <= i < |rows| ==>
        r.value.sections[i] == SectionEntry(rows[i][0].asInt, rows[i][1].asInt)
  {
    var points :- ReadSubTable(f, h, MitochondriaGroup, MitoPoints, H5_1_1, 2, MITO_POINT_COLUMNS);
    var structure :- ReadSubTable(f, h, MitochondriaGroup, MitoStructure, H5_1_1, 2, MITO_STRUCTURE_COLUMNS);
    Success(Mitochondria(DecodeMitoPoints(points, toSectionId), SectionsOf(structure, 0, 1)))
  }

  // ---------------------------------------------------------------------
  // The whole decode.

  predicate MitoAvailable(f: H5File) {
    && SubTableAvailable(f, MitochondriaGroup, MitoPoints, 2, MITO_POINT_COLUMNS)
    && SubTableAvailable(f, MitochondriaGroup, MitoStructure, 2, MITO_STRUCTURE_COLUMNS)
  }

  /** The stage tables a v2 decode needs, with the shapes it checks. */
  predicate V2TablesPresent(f: H5File, stage: RepairStage) {
    && StagePoints(stage) in f.datasets && Is2D(f.datasets[StagePoints(stage)], POINT_COLUMNS)
    && StageStructure(stage) in f.datasets && Is2D(f.datasets[StageStructure(stage)], STRUCTURE_V2_COLUMNS)
    && V2Types in f.datasets && Is2D(f.datasets[V2Types], 1)
  }

  /** The mandatory sequences of `p` are, entry by entry, the rows of the
      given tables: point i and diameter i from point row i, section i from
      columns 0 and `parentCol` of structure row i, type i from column
      `typeCol` of type row i. */
  predicate DecodedFrom(p: Properties, pointRows: seq<seq<Cell>>,
                        structureRows: seq<seq<Cell>>, parentCol: nat,
                        typeRows: seq<seq<Cell>>, typeCol: nat)
  {
    && |p.points| == |pointRows| && |p.diameters| == |pointRows|
    && (forall i :: 0 <= i < |pointRows| ==>
          && |pointRows[i]| >= POINT_COLUMNS
          && p.points[i] == Point(pointRows[i][0].asFloat, pointRows[i][1].asFloat, pointRows[i][2].asFloat)
          && p.diameters[i] == pointRows[i][3].asFloat)
    && |p.sections| == |structureRows|
    && (forall i :: 0 <= i < |structureRows| ==>
          && |structureRows[i]| > parentCol
          && p.sections[i] == SectionEntry(structureRows[i][0].asInt, structureRows[i][parentCol].asInt))
    && |p.sectionTypes| == |typeRows|
    && (forall i :: 0 <= i < |typeRows| ==>
          && |typeRows[i]| > typeCol
          && p.sectionTypes[i] == typeRows[i][typeCol].asInt)
  }

  /** `load`: open, resolve the version, pick the repair stage, then decode
      points, sections, types, perimeters and mitochondria in that order. A
      file that cannot be opened is `None`; the float-to-uint32 conversion
      of mitochondrial section ids is `toSectionId`. */
  function Load(source: Option<H5File>, toSectionId: Float -> uint32): (r: Result<Properties, Error>)
    ensures r == Failure(OpenFailed) <==> source.None?
    ensures source.Some? && CheckVersion(source.value).Failure? ==> r == Failure(CheckVersion(source.value).error)
    ensures source.Some? && CheckVersion(source.value).Success? && CheckVersion(source.value).value.version == H5_2 ==>
      var f := source.value;
      var stage := SelectRepairStage(f, H5_2);
      var pointsOk := StagePoints(stage) in f.datasets && Is2D(f.datasets[StagePoints(stage)], POINT_COLUMNS);
      var structureOk := StageStructure(stage) in f.datasets && Is2D(f.datasets[StageStructure(stage)], STRUCTURE_V2_COLUMNS);
      && (!pointsOk ==> r == Failure(TableError(f, StagePoints(stage))))
      && (pointsOk && !structureOk ==> r == Failure(TableError(f, StageStructure(stage))))
      && (pointsOk && structureOk && !V2TablesPresent(f, stage) ==> r == Failure(TableError(f, V2Types)))
    ensures source.Some? && CheckVersion(source.value).Success? && CheckVersion(source.value).value.version != H5_2 && r.Failure? ==>
      r.error == GliaDataMissing
    ensures r.Success? ==> source.Some? && CheckVersion(source.value).Success?
    ensures r.Success? ==>
      var p := r.value;
      && IsKnown(p.version)
      && p.version == CheckVersion(source.value).value.version
      && p.family == CheckVersion(source.value).value.family
      && |p.points| == |p.diameters|
      && |p.mitoSectionIds| == |p.mitoPathLengths| == |p.mitoDiameters|
      && (p.version != H5_2 ==> |p.sections| == |p.sectionTypes|)
      && (p.version != H5_1_1 ==>
            && p.family == NEURON && p.perimeters == []
            && p.mitoSectionIds == [] && p.mitoSections == [])
    ensures r.Success? && r.value.version == H5_2 ==>
      var f := source.value;
      var stage := SelectRepairStage(f, H5_2);
      && V2TablesPresent(f, stage)
      && DecodedFrom(r.value, f.datasets[StagePoints(stage)].rows,
                     f.datasets[StageStructure(stage)].rows, 1, f.datasets[V2Types].rows, 0)
    ensures r.Success? && r.value.version != H5_2 ==>
      var f := source.value;
      && LegacyLayout(f)
      && DecodedFrom(r.value, f.datasets[LegacyPoints].rows,
                     f.datasets[LegacyStructure].rows, 2, f.datasets[LegacyStructure].rows, 1)
    ensures r.Success? && r.value.version == H5_1_1 && PerimetersAvailable(source.value) ==>
      var rows := source.value.datasets[LegacyPerimeters].rows;
      |r.value.perimeters| == |rows| && forall i :: 0 <= i < |rows| ==> r.value.perimeters[i] == rows[i][0].asFloat
    ensures r.Success? && !PerimetersAvailable(source.value) ==> r.value.perimeters == []
    ensures r.Success? && r.value.version == H5_1_1 ==>
      var f := source.value;
      && (SubTableAvailable(f, MitochondriaGroup, MitoPoints, 2, MITO_POINT_COLUMNS) ==>
            var rows := f.datasets[MitoPoints].rows;
            && |r.value.mitoSectionIds| == |rows|
            && forall i :: 0 <= i < |rows| ==>
                 && r.value.mitoSectionIds[i] == toSectionId(rows[i][0].asFloat)
                 && r.value.mitoPathLengths[i] == rows[i][1].asFloat
                 && r.value.mitoDiameters[i] == rows[i][2].asFloat)
      && (!SubTableAvailable(f, MitochondriaGroup, MitoPoints, 2, MITO_POINT_COLUMNS) ==>
            r.value.mitoSectionIds == [] && r.value.mitoPathLengths == [] && r.value.mitoDiameters == [])
      && (SubTableAvailable(f, MitochondriaGroup, MitoStructure, 2, MITO_STRUCTURE_COLUMNS) ==>
            var rows := f.datasets[MitoStructure].rows;
            |r.value.mitoSections| == |rows| && forall i :: 0 <= i < |rows| ==>
              r.value.mitoSections[i] == SectionEntry(rows[i][0].asInt, rows[i][1].asInt))
      && (!SubTableAvailable(f, MitochondriaGroup, MitoStructure, 2, MITO_STRUCTURE_COLUMNS) ==>
            r.value.mitoSections == [])
  {
    if source.None? then Failure(OpenFailed)
    else
      var f := source.value;
      var h :- CheckVersion(f);
      var stage := SelectRepairStage(f, h.version);
      var geometry :- ReadPoints(f, h, stage);
      var sections :- ReadSections(f, h, stage);
      var types :- ReadSectionTypes(f, h);
      var perimeters :- ReadPerimeters(f, h);
      var mito :- ReadMitochondria(f, h, toSectionId);
      Success(Properties(
        h.version, h.family,
        geometry.points, geometry.diameters, perimeters,
        sections, types,
        mito.points.sectionIds, mito.points.pathLengths, mito.points.diameters,
        mito.sections))
  }
}
