/** The HDF5 container as the reader sees it: groups carrying attributes and
    datasets holding rectangular tables, all addressed by fixed paths. Opening
    the file and the HDF5 access library itself are outside the model; a file
    is an immutable value and every "get or throw" becomes a map lookup. */
module Store {
  import opened Versions

  /** A stored floating-point number. The reader only moves these between
      positions and never computes on them. */
  type Float(==)

  /** One stored cell, with the value HDF5 delivers when it is read into a
      float buffer and the value it delivers when read into an integer buffer. */
  datatype Cell = Cell(asFloat: Float, asInt: int)

  function FloatOf(c: Cell): Float { c.asFloat }

  function IntOf(c: Cell): int { c.asInt }

  function Product(xs: seq<nat>): nat {
    if xs == [] then 1 else xs[0] * Product(xs[1..])
  }

  /** Number of rows along the first dimension; a scalar is one row. */
  function Extent(dims: seq<nat>): nat {
    if dims == [] then 1 else dims[0]
  }

  /** Number of cells per row once the trailing dimensions are flattened. */
  function RowWidth(dims: seq<nat>): (w: nat)
    ensures |dims| <= 1 ==> w == 1
    ensures |dims| == 2 ==> w == dims[1]
  {
    if dims == [] then 1
    else
      assert |dims| == 2 ==> dims[1..][1..] == [] && Product(dims[1..][1..]) == 1;
      Product(dims[1..])
  }

  /** A dataspace (its dimensions) and its contents, row by row. */
  datatype Dataset = Dataset(dims: seq<nat>, rows: seq<seq<Cell>>)

  /** The contents agree with the dataspace, as HDF5 guarantees. */
  predicate Consistent(d: Dataset) {
    && |d.rows| == Extent(d.dims)
    && forall i :: 0 <= i < |d.rows| ==> |d.rows[i]| == RowWidth(d.dims)
  }

  type Table = d: Dataset | Consistent(d) witness Dataset([0], [])

  /** The shape check the reader applies to its mandatory tables:
      exactly two dimensions and the expected number of columns. */
  predicate Is2D(d: Dataset, columns: nat) {
    |d.dims| == 2 && d.dims[1] == columns
  }

  /** Every row has at least `width` cells, so indices below it are defined. */
  predicate RowsAtLeast(rows: seq<seq<Cell>>, width: nat) {
    forall i :: 0 <= i < |rows| ==> |rows[i]| >= width
  }

  lemma Is2DRows(t: Table, columns: nat)
    requires Is2D(t, columns)
    ensures |t.rows| == t.dims[0]
    ensures RowsAtLeast(t.rows, columns)
  {
  }

  datatype GroupPath = Metadata | Root | MitochondriaGroup

  datatype AttrName = VersionAttr | FamilyAttr

  /** Every dataset location the reader ever opens. */
  datatype DatasetPath =
    | LegacyPoints
    | LegacyStructure
    | LegacyPerimeters
    | StagePoints(stage: RepairStage)
    | StageStructure(stage: RepairStage)
    | V2Types
    | MitoPoints
    | MitoStructure

  /** An attribute either holds unsigned integers or something that cannot
      be read into an unsigned integer buffer (a string, a compound, ...). */
  datatype Attribute = UIntAttr(values: seq<uint32>) | OtherAttr

  /** A group is present when it is a key of `groups`; its value holds the
      group's attributes. */
  datatype H5File = H5File(groups: map<GroupPath, map<AttrName, Attribute>>,
                           datasets: map<DatasetPath, Table>)

  /** Reading an attribute into a fixed buffer of `n` unsigned integers
      succeeds only when the attribute holds exactly `n` of them. */
  predicate Readable(a: Attribute, n: nat) {
    a.UIntAttr? && |a.values| == n
  }
}
