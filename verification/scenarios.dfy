/** Whole-decode consequences of the reader's steps: which files can fail
    where, and with which error. */
module Scenarios {
  import opened Results
  import opened Versions
  import opened Store
  import opened Property
  import opened Projection
  import opened MorphologyHDF5

  /** Over all files: a decode succeeds exactly when resolution succeeds,
      a v2 file has its selected stage's tables, and a v1.1 glial cell has
      its perimeters and both mitochondrial tables. */
  lemma LoadSucceedsIff(f: H5File, toSectionId: Float -> uint32)
    ensures Load(Some(f), toSectionId).Success? <==>
      && CheckVersion(f).Success?
      && (CheckVersion(f).value.version == H5_2 ==> V2TablesPresent(f, SelectRepairStage(f, H5_2)))
      && (CheckVersion(f).value.version == H5_1_1 && CheckVersion(f).value.family.IsGlia() ==>
            PerimetersAvailable(f) && MitoAvailable(f))
  {
    if CheckVersion(f).Success? {
      var h := CheckVersion(f).value;
      if h.version == H5_2 {
        V2DecodesIffStageTablesPresent(f, toSectionId);
      } else if h.version == H5_1_1 && h.family.IsGlia() {
        GliaV11NeedsOptionalTables(f, toSectionId);
      } else {
        LegacyFailsOnlyForGlia(f, toSectionId);
      }
    }
  }

  /** Once a legacy file is resolved, only a glial cell's missing optional
      tables can still stop the decode. */
  lemma LegacyFailsOnlyForGlia(f: H5File, toSectionId: Float -> uint32)
    requires CheckVersion(f).Success?
    requires CheckVersion(f).value.version != H5_2
    ensures var r := Load(Some(f), toSectionId);
      && (!CheckVersion(f).value.family.IsGlia() ==> r.Success?)
      && (r.Failure? ==> r.error == GliaDataMissing)
  {
  }

  /** A resolved v1.1 glial cell decodes exactly when its perimeters and
      both mitochondrial tables are available; otherwise it fails with the
      glia error. */
  lemma GliaV11NeedsOptionalTables(f: H5File, toSectionId: Float -> uint32)
    requires CheckVersion(f).Success?
    requires CheckVersion(f).value.version == H5_1_1
    requires CheckVersion(f).value.family.IsGlia()
    ensures var r := Load(Some(f), toSectionId);
      && (r.Success? <==> PerimetersAvailable(f) && MitoAvailable(f))
      && (r.Failure? ==> r.error == GliaDataMissing)
  {
  }

  /** A resolved v1.1 cell of any other family decodes whatever optional
      tables it lacks, and what it lacks comes out empty. */
  lemma NonGliaV11ToleratesMissingTables(f: H5File, toSectionId: Float -> uint32)
    requires CheckVersion(f).Success?
    requires CheckVersion(f).value.version == H5_1_1
    requires !CheckVersion(f).value.family.IsGlia()
    ensures var r := Load(Some(f), toSectionId);
      && r.Success?
      && (!PerimetersAvailable(f) ==> r.value.perimeters == [])
      && (!SubTableAvailable(f, MitochondriaGroup, MitoPoints, 2, MITO_POINT_COLUMNS) ==>
            r.value.mitoSectionIds == [] && r.value.mitoPathLengths == [] && r.value.mitoDiameters == [])
      && (!SubTableAvailable(f, MitochondriaGroup, MitoStructure, 2, MITO_STRUCTURE_COLUMNS) ==>
            r.value.mitoSections == [])
  {
  }

  /** A resolved v2 file decodes exactly when the selected stage's points
      and structure tables and the type table exist with the right shapes;
      the type count is never compared with the section count. */
  lemma V2DecodesIffStageTablesPresent(f: H5File, toSectionId: Float -> uint32)
    requires CheckVersion(f).Success?
    requires CheckVersion(f).value.version == H5_2
    ensures var r := Load(Some(f), toSectionId);
      r.Success? <==> V2TablesPresent(f, SelectRepairStage(f, H5_2))
    ensures var r := Load(Some(f), toSectionId);
      r.Success? ==> r.value.perimeters == [] && r.value.mitoSections == []
  {
  }

  /** A plain legacy file (no metadata group, no root group) whose
      /structure table is not N x 3 is reported as an unknown format:
      the legacy check's own shape error is replaced. */
  lemma PlainV1BadStructureIsUnknownFormat(f: H5File, toSectionId: Float -> uint32)
    requires Metadata !in f.groups && Root !in f.groups
    requires LegacyStructure in f.datasets
    requires !Is2D(f.datasets[LegacyStructure], STRUCTURE_V1_COLUMNS)
    ensures Load(Some(f), toSectionId) == Failure(UnknownFormat)
  {
  }

  /** The same misshaped /structure in a v1.1 file surfaces as a shape
      error naming /structure, because the v1.1 probe runs the legacy check
      outside its own error handling. */
  lemma V11BadStructureIsShapeError(f: H5File, toSectionId: Float -> uint32)
    requires V11Marker(f) && FamilyReadable(f)
    requires LegacyPoints in f.datasets && Is2D(f.datasets[LegacyPoints], POINT_COLUMNS)
    requires LegacyStructure in f.datasets
    requires !Is2D(f.datasets[LegacyStructure], STRUCTURE_V1_COLUMNS)
    ensures Load(Some(f), toSectionId) == Failure(BadShape(LegacyStructure))
  {
  }

  /** A v2 file holding only the raw stage decodes the raw stage. */
  lemma OnlyRawSelectsRaw(f: H5File)
    requires StagePresent(f, Raw)
    requires !StagePresent(f, Repaired) && !StagePresent(f, Unraveled)
    ensures SelectRepairStage(f, H5_2) == Raw
  {
  }

  /** Resolution does not look at the root group's attributes. */
  lemma CheckVersionIgnoresRootAttributes(f: H5File, attrs: map<AttrName, Attribute>)
    requires Root in f.groups
    ensures CheckVersion(f.(groups := f.groups[Root := attrs])) == CheckVersion(f)
  {
  }

  /** The root group's version attribute never influences the decode:
      replacing the root group's attributes changes nothing. */
  lemma V2VersionAttributeIgnored(f: H5File, attrs: map<AttrName, Attribute>, toSectionId: Float -> uint32)
    requires Root in f.groups
    ensures Load(Some(f.(groups := f.groups[Root := attrs])), toSectionId) == Load(Some(f), toSectionId)
  {
    var g := f.(groups := f.groups[Root := attrs]);
    CheckVersionIgnoresRootAttributes(f, attrs);
    if CheckVersion(f).Success? {
      var h := CheckVersion(f).value;
      var s := SelectRepairStage(f, h.version);
      assert SelectRepairStage(g, h.version) == s;
      assert ReadPoints(g, h, s) == ReadPoints(f, h, s);
      assert ReadSections(g, h, s) == ReadSections(f, h, s);
      assert ReadSectionTypes(g, h) == ReadSectionTypes(f, h);
      assert ReadPerimeters(g, h) == ReadPerimeters(f, h);
      assert MitochondriaGroup in g.groups <==> MitochondriaGroup in f.groups;
      assert ReadMitochondria(g, h, toSectionId) == ReadMitochondria(f, h, toSectionId);
    }
  }

  // ---------------------------------------------------------------------
  // The optional-table read checks the rank alone (see README, Findings).

  /** A v1.1 file whose mitochondrial point table is 1 x 2 passes the
      rank-only check, yet the point decoder reads column 2 of each row;
      the corrected read treats the table as unavailable instead. */
  lemma RankOnlyCheckAdmitsNarrowMitoPoints(h: Header, c: Cell)
    requires h.version == H5_1_1
    ensures var f := H5File(map[MitochondriaGroup := map[]],
                            map[MitoPoints := Dataset([1, 2], [[c, c]])]);
      && ReadSubTableAsWritten(f, h, MitochondriaGroup, MitoPoints, H5_1_1, 2) == Success([[c, c]])
      && !RowsAtLeast([[c, c]], MITO_POINT_COLUMNS)
      && ReadSubTable(f, h, MitochondriaGroup, MitoPoints, H5_1_1, 2, MITO_POINT_COLUMNS)
           == (if h.family.IsGlia() then Failure(GliaDataMissing) else Success([]))
  {
    var f := H5File(map[MitochondriaGroup := map[]],
                    map[MitoPoints := Dataset([1, 2], [[c, c]])]);
    assert SubTableAvailable(f, MitochondriaGroup, MitoPoints, 2, 0);
    assert |[[c, c]][0]| < MITO_POINT_COLUMNS;
    assert !SubTableAvailable(f, MitochondriaGroup, MitoPoints, 2, MITO_POINT_COLUMNS);
  }
}
