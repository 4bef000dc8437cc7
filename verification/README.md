# MorphIO HDF5 morphology reader — Dafny model

This project models the reader in `src/plugin/morphologyHDF5.cpp`. The reader
decodes a neuron or glial cell stored as flat HDF5 tables into the library's
`Properties` bundle. It runs in a fixed order:

1. It resolves the layout version: v1.1 metadata first, then the v2 root group,
   then the plain v1 layout. If none matches, it fails with "unknown format".
2. It selects the v2 repair stage: `repaired`, `unraveled`, `raw`, falling back to `repaired`.
3. It decodes the points table into points and diameters.
4. It decodes the section structure table.
5. It decodes the section types.
6. It decodes perimeters and mitochondria (v1.1 only). A missing table is fatal
   only for a glial cell.

The HDF5 file is an immutable value (`Store.H5File`):
- groups map to their attributes;
- dataset paths map to tables, each with a dataspace and its rows;
- every "open it or catch the exception" step is a map lookup;
- every exception that escapes `load` is a `Failure` carrying an error kind
  (`MorphologyHDF5.Error`).

Stored floats are an opaque type `Float`. The reader never computes on them; it
only moves them. Each stored cell has the value HDF5 delivers into a float
buffer and the value it delivers into an integer buffer.

Modules:
- `Versions`: the version triple, the family code and the repair stage.
- `Store`: the container.
- `Property`: the output bundle.
- `Projection`: row-order-preserving column projections, the table layouts they
  invert, and the round trips.
- `MorphologyHDF5`: the reader, one function per source function.
- `Scenarios`: whole-decode consequences.
- `Synthetic`: files built per layout, and the proof that decoding them returns
  what was written.

The model follows the code where a description of the format might suggest otherwise:
- A plain v1 file (no metadata group, no root group) whose `/structure` is not
  N×3 fails with "unknown format", not with a shape error naming `/structure`.
  The legacy check runs inside the catch-all of `_checkVersion`
  (`Scenarios.PlainV1BadStructureIsUnknownFormat`). The same table in a v1.1
  file does give a shape error, because `_readV11Metadata` calls `_resolveV1`
  outside its `try` (`Scenarios.V11BadStructureIsShapeError`).
- In v2 the number of section types is never compared with the number of sections.
- The number of perimeters is never compared with the number of points.
- Nothing checks that a parent section precedes its child. The model claims none of these.

## Model

| member | source | states |
|---|---|---|
| `Projection.DecodeGeometry` | src/plugin/morphologyHDF5.cpp:255-271 | one point and one diameter per table row, in row order: row i gives point (r[0], r[1], r[2]) and diameter r[3] |
| `Projection.Column` | src/plugin/morphologyHDF5.cpp:361-368 | a column selection keeps one entry per row, in row order, each the selected cell of that row |
| `Projection.SectionsOf` | src/plugin/morphologyHDF5.cpp:308-328 | section entry i pairs the start and parent columns of row i; the legacy read selects columns 0 and 2 (stride 2), v2 columns 0 and 1 |
| `Projection.DecodeMitoPoints` | src/plugin/morphologyHDF5.cpp:449-456 | three aligned sequences, one entry per mitochondrial point row: converted section id, path length, diameter |
| `Projection.GeometryRoundTrip` | src/plugin/morphologyHDF5.cpp:255-271 | splitting rows into points and diameters recovers exactly the geometry a writer stored |
| `Projection.LegacyStructureRoundTrip` | src/plugin/morphologyHDF5.cpp:320-368 | columns {0,2} and column {1} of the packed 3-column legacy table give back the sections and types packed into it |
| `Projection.SectionsRoundTrip` | src/plugin/morphologyHDF5.cpp:308-313 | a 2-column structure table decodes to the sections it stores |
| `Projection.FloatsRoundTrip` | src/plugin/morphologyHDF5.cpp:390-392 | a 1-D perimeters table decodes to the values it stores |
| `Projection.IntsRoundTrip` | src/plugin/morphologyHDF5.cpp:361-362 | an N×1 type table decodes to the types it stores |
| `Projection.MitoPointsRoundTrip` | src/plugin/morphologyHDF5.cpp:449-456 | a mitochondrial point table decodes to the stored path lengths and diameters and the converted ids |
| `MorphologyHDF5.OpenTable` | src/plugin/morphologyHDF5.cpp:234-254 | a mandatory table is accepted iff it exists and is 2-D with the expected columns; otherwise the error says missing or misshaped and names the path |
| `MorphologyHDF5.ResolveV1` | src/plugin/morphologyHDF5.cpp:121-146 | succeeds iff /points is N×4 and /structure is N×3; checks /points first; on failure the error names the first bad dataset of the two, as missing when absent and as misshaped otherwise |
| `MorphologyHDF5.ReadV11Metadata` | src/plugin/morphologyHDF5.cpp:148-183 | "not v1.1" iff there is no metadata group or its version pair is readable and not (1,1); v1.1 iff the pair is (1,1), the family is readable and the legacy layout holds, and then the family is the attribute's code and the header holds /points and /structure; other attribute problems are fatal; when the pair is (1,1) and the family readable but the legacy layout fails, the legacy check's own error escapes unchanged |
| `MorphologyHDF5.ReadV2Metadata` | src/plugin/morphologyHDF5.cpp:185-211 | v2 iff the root group exists, whatever its version attribute holds or whether it has one |
| `MorphologyHDF5.CheckVersion` | src/plugin/morphologyHDF5.cpp:77-98 | first match wins: H5_1_1 iff the v1.1 marker is present, H5_2 iff not v1.1 and the root group exists, H5_1 otherwise; a complete v1.1 file always resolves, with the family attribute's code; a legacy header holds exactly /points and /structure; "unknown format" iff none of the three fingerprints matches; any other error is the v1.1 probe's; the family stays neuron outside v1.1 |
| `MorphologyHDF5.FirstPresent` | src/plugin/morphologyHDF5.cpp:105-117 | the index of the first candidate stage whose points dataset exists: all earlier candidates are absent |
| `MorphologyHDF5.SelectRepairStage` | src/plugin/morphologyHDF5.cpp:100-119 | no effect outside v2; unraveled iff repaired is absent and unraveled present; raw iff only raw is present; repaired otherwise; a present stage is chosen whenever one exists |
| `MorphologyHDF5.ReadPoints` | src/plugin/morphologyHDF5.cpp:227-273 | legacy reads never fail; v2 succeeds iff the stage's points table exists and is N×4, and otherwise fails naming that table as missing or misshaped; one point and one diameter per row, in order |
| `MorphologyHDF5.ReadSections` | src/plugin/morphologyHDF5.cpp:275-330 | v2: succeeds iff the stage structure table is N×2, otherwise fails naming it as missing or misshaped; entry i = (row i col 0, row i col 1); legacy: entry i = (row i col 0, row i col 2) |
| `MorphologyHDF5.ReadSectionTypes` | src/plugin/morphologyHDF5.cpp:332-369 | v2: succeeds iff the type table is N×1, otherwise fails naming it as missing or misshaped; one type per row; legacy: column 1 of the same structure table |
| `MorphologyHDF5.Tolerate` | src/plugin/morphologyHDF5.cpp:394-400 | an unavailable optional table is fatal iff the family is glia; otherwise the output stays empty |
| `MorphologyHDF5.ReadPerimeters` | src/plugin/morphologyHDF5.cpp:371-401 | empty outside v1.1; in v1.1 fails iff the cell is glial and /perimeters is missing or not 1-D; otherwise one perimeter per row, or empty when unavailable |
| `MorphologyHDF5.ReadSubTable` | src/plugin/morphologyHDF5.cpp:403-438 | output untouched unless the version matches; fails iff glial and the group, dataset or rank is wrong or (corrected) some row is narrower than the columns its caller reads; a returned table is wide enough for its caller; an unavailable table leaves the output empty |
| `MorphologyHDF5.ReadSubTableAsWritten` | src/plugin/morphologyHDF5.cpp:403-438 | the source's rank-only check: the same policy with no column requirement; a failure is the glia error |
| `MorphologyHDF5.ReadMitochondria` | src/plugin/morphologyHDF5.cpp:440-470 | empty outside v1.1; in v1.1 fails iff glial and either table is unavailable; an unavailable table leaves its sequences empty; otherwise three aligned per-point sequences in row order plus one section per structure row |
| `MorphologyHDF5.Load` | src/plugin/morphologyHDF5.cpp:43-68 | the open error is raised iff the file cannot be opened; a resolution error escapes unchanged; a v2 decode fails with the missing-or-misshaped error of the first bad table among points, structure and types; a later v1/v1.1 failure is the glia error; a decoded bundle has the resolved version and family; its points, diameters, sections and types are, entry by entry, the rows of the stage tables (v2) or of /points and /structure (columns 0,2 and 1) otherwise; its perimeters are the rows of /perimeters when available in v1.1 and empty otherwise; in v1.1 its mitochondrial ids, path lengths, diameters and sections are the rows of the mitochondrial tables when available, whatever the perimeters, and empty otherwise; outside v1.1 it has no perimeters, no mitochondria and the neuron family |
| `Scenarios.LoadSucceedsIff` | src/plugin/morphologyHDF5.cpp:43-68 | for every file, the decode succeeds iff resolution succeeds, a v2 file has the selected stage's tables with their shapes, and a v1.1 glial cell has its perimeters and both mitochondrial tables |
| `Scenarios.LegacyFailsOnlyForGlia` | src/plugin/morphologyHDF5.cpp:59-65 | after a legacy resolution only the glia rule can stop the decode; a non-glial legacy cell always decodes |
| `Scenarios.GliaV11NeedsOptionalTables` | src/plugin/morphologyHDF5.cpp:371-470 | a v1.1 glial cell decodes iff its perimeters and both mitochondrial tables are available; otherwise the error is the glia error |
| `Scenarios.NonGliaV11ToleratesMissingTables` | src/plugin/morphologyHDF5.cpp:394-400 | a v1.1 cell of another family always decodes, with empty sequences for whatever is missing |
| `Scenarios.V2DecodesIffStageTablesPresent` | src/plugin/morphologyHDF5.cpp:227-369 | a v2 file decodes iff the selected stage's points and structure tables and the type table have their shapes |
| `Scenarios.PlainV1BadStructureIsUnknownFormat` | src/plugin/morphologyHDF5.cpp:85-97 | a plain legacy file with a misshaped /structure fails as an unknown format |
| `Scenarios.V11BadStructureIsShapeError` | src/plugin/morphologyHDF5.cpp:181 | the same defect in a v1.1 file fails with a shape error naming /structure |
| `Scenarios.OnlyRawSelectsRaw` | src/plugin/morphologyHDF5.cpp:105-118 | a v2 file holding only the raw stage selects raw |
| `Scenarios.CheckVersionIgnoresRootAttributes` | src/plugin/morphologyHDF5.cpp:185-211 | resolution does not depend on the root group's attributes |
| `Scenarios.V2VersionAttributeIgnored` | src/plugin/morphologyHDF5.cpp:185-211 | replacing the root group's attributes leaves the whole decode unchanged |
| `Scenarios.RankOnlyCheckAdmitsNarrowMitoPoints` | src/plugin/morphologyHDF5.cpp:419-455 | a 1×2 mitochondrial point table passes the rank-only check although the decoder reads column 2; the corrected read treats it as unavailable |
| `Synthetic.V1RoundTrip` | src/plugin/morphologyHDF5.cpp:43-68 | a plain legacy file decodes to version H5_1, family neuron and exactly the points, diameters, sections and types it stores |
| `Synthetic.V11RoundTrip` | src/plugin/morphologyHDF5.cpp:43-68 | a v1.1 file of any family decodes to exactly its content, with mitochondrial ids passed through the float-to-uint32 conversion |
| `Synthetic.V2RoundTrip` | src/plugin/morphologyHDF5.cpp:43-68 | a single-stage v2 file selects that stage and decodes to exactly its points, diameters, sections and types |

## Left out

- Opening the file and HDF5 itself are not modelled. This covers `SilenceHDF5`,
  dataspace queries, hyperslab selection, buffer reads and the destructor
  (lines 47-58, 70-75). `Load` takes the file as `Option<H5File>`, and `None`
  stands for a file that could not be opened.
- HDF5 type conversion is not modelled. A cell carries the value a float read
  delivers and the value an integer read delivers. The 32-bit widths of the
  integer buffers are not modelled either.
- The float-to-uint32 cast of mitochondrial section ids (line 453) is the
  parameter `toSectionId`. The source's behaviour for out-of-range values is
  undefined.
- `_getStructureDataSet` (lines 213-225) is not modelled: it belongs to the write path.
- The `options` argument of the free `load` (lines 38-41) is not modelled. The source ignores it.
- Error messages are not modelled, only error kinds. The source gives the
  perimeters and both mitochondrial tables the same glia message, and the model
  gives them one kind.
- The v2 root group's version attribute is reduced to whether it equals (2, 0).
  The result does not depend on it (`MorphologyHDF5.ReadV2Metadata`).
- The header defining the version constants, the family enumeration and the
  dataset names is not part of this model. The model uses ("h5",1,0),
  ("h5",1,1), ("h5",2,0) and neuron = 0, glia = 1, and names paths by abstract
  constructors. Only their distinctness matters to the contracts.
- Only the `MorphologyVersion` tuple is used from `include/morphio/types.h`; the
  rest of that file is aliases and forward declarations.
- `morphio/__init__.py` is not modelled: it is packaging.
- `include/morphio/mut/glial_cell.h` is not modelled: it only declares constructors.
- Building the section tree from `Properties` is not part of this model.
- Parent-before-child ordering, perimeter count = point count, and v2
  type count = section count are not claimed, because the reader checks none of them.

## Findings

| source | as written | input that shows it | evidently intended | confidence | as-written member | corrected member |
|---|---|---|---|---|---|---|
| src/plugin/morphologyHDF5.cpp:419-455 | `_read` checks only the rank of the mitochondrial tables, then `_readMitochondria` indexes `p[2]` and `s[1]` of every row | a v1.1 file whose mitochondrial point table is 1×2 (or whose structure table is N×1) | a table with a row narrower than the columns read is treated like a missing one, under the glia policy, as the mandatory tables are column-checked; a table with no rows is accepted, as the source reads none of it | medium; not executed | `MorphologyHDF5.ReadSubTableAsWritten` with `Scenarios.RankOnlyCheckAdmitsNarrowMitoPoints` | `MorphologyHDF5.ReadSubTable` |
