/** The canonical output of a decode: the flat, positionally aligned
    sequences the tree-building code consumes, plus cell-level metadata. */
module Property {
  import opened Versions
  import opened Store

  datatype Point = Point(x: Float, y: Float, z: Float)

  /** A section: the offset of its first point and the index of its parent
      section (-1 for a root). A mitochondrial section has the same shape
      over the mitochondrial point space. */
  datatype SectionEntry = SectionEntry(start: int, parent: int)

  datatype Properties = Properties(
    version: MorphologyVersion,
    family: CellFamily,
    points: seq<Point>,
    diameters: seq<Float>,
    perimeters: seq<Float>,
    sections: seq<SectionEntry>,
    sectionTypes: seq<int>,
    mitoSectionIds: seq<uint32>,
    mitoPathLengths: seq<Float>,
    mitoDiameters: seq<Float>,
    mitoSections: seq<SectionEntry>)
}
