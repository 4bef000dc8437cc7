/** Cell-level metadata that the reader resolves before decoding any table:
    the on-disk layout version, the cell family and the v2 repair stage. */
module Versions {

  /** An unsigned 32-bit integer, the width of the metadata attributes. */
  newtype uint32 = x: int | 0 <= x < 0x1_0000_0000

  /** The (file format, major, minor) triple of include/morphio/types.h:62. */
  datatype MorphologyVersion = MorphologyVersion(format: string, major: uint32, minor: uint32)

  /** The legacy layout: /points and a 3-column /structure table. */
  const H5_1: MorphologyVersion := MorphologyVersion("h5", 1, 0)
  /** The legacy layout plus a metadata group, perimeters and mitochondria. */
  const H5_1_1: MorphologyVersion := MorphologyVersion("h5", 1, 1)
  /** The root-group layout with one table set per repair stage. */
  const H5_2: MorphologyVersion := MorphologyVersion("h5", 2, 0)

  /** The three versions a successful resolution can produce. */
  predicate IsKnown(v: MorphologyVersion) {
    v == H5_1 || v == H5_1_1 || v == H5_2
  }

  /** A cell family is the raw code of the family attribute, cast to the
      enumeration without any range check. */
  datatype CellFamily = CellFamily(code: uint32) {
    predicate IsGlia() {
      this == GLIA
    }
  }

  const NEURON: CellFamily := CellFamily(0)
  const GLIA: CellFamily := CellFamily(1)

  /** The alternative point/structure tables of a v2 file. */
  datatype RepairStage = Raw | Unraveled | Repaired

  /** The order in which stages are probed: the first one present wins. */
  const STAGE_PRIORITY: seq<RepairStage> := [Repaired, Unraveled, Raw]
}
