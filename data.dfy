/** The values the handler works on once NetCDF I/O is abstracted away: attribute values,
    array cells, variables (an xarray `DataArray`) and the opened file (an xarray `Dataset`). */
module Data {
  import opened Wrappers

  /** The exceptions that escape from the handler's operations. */
  datatype Error =
    | KeyError(key: Attr)   // a missing dictionary or dataset key
    | IndexError            // indexing past the end of a shape or a sequence
    | TypeError             // an operation applied to a value of the wrong type
    | ValueError            // xarray/numpy rejecting a missing or mismatched dimension
    | AttributeError        // a method called on a value that does not have it

  type Outcome<T> = Result<T, Error>

  /** An attribute or metadata value: a string, a number, a numeric array (such as
      `valid_range`) or a list/tuple of strings (such as decoded `flag_meanings`). */
  datatype Attr =
    | Str(s: string)
    | Int(i: int)
    | Real(x: real)
    | Reals(xs: seq<real>)
    | Strs(items: seq<string>)

  /** A metadata dictionary: a variable's `attrs`, a dataset's `ds_info`, `filename_info`. */
  type Info = map<string, Attr>

  /** The numeric value of a scalar attribute, when it has one. */
  function AsReal(a: Attr): Option<real>
  {
    match a
    case Int(i) => Some(i as real)
    case Real(x) => Some(x)
    case _ => None
  }

  /** One array element: a floating-point value, an unsigned 8-bit quality-flag value, or
      a missing value (NaN, as left by a fill value or by masking). */
  datatype Cell = Missing | Float(x: real) | Byte(b: bv8)

  /** The value of a cell; a missing cell has none and compares false with everything. */
  function CellValue(c: Cell): Option<real>
  {
    match c
    case Missing => None
    case Float(x) => Some(x)
    case Byte(b) => Some(b as int as real)
  }

  /** The cell as a floating-point value: `where` promotes integer arrays to floats. */
  function AsFloat(c: Cell): (r: Cell)
    ensures CellValue(r) == CellValue(c) && !r.Byte?
  {
    match c
    case Byte(b) => Float(b as int as real)
    case _ => c
  }

  /** `rows` rows of exactly `cols` elements each. */
  ghost predicate IsGrid<T>(g: seq<seq<T>>, rows: nat, cols: nat)
  {
    |g| == rows && forall i :: 0 <= i < |g| ==> |g[i]| == cols
  }

  /** All rows of a grid have the same length as its first. */
  predicate IsRectangular<T>(g: seq<seq<T>>)
  {
    forall i :: 0 <= i < |g| ==> |g[i]| == |g[0]|
  }

  /** One variable of the file: its dimension names, its shape, its attributes, its values
      (row by row, all axes but the last flattened into the rows) and the names of the
      non-index coordinates attached to it. */
  datatype Variable = Variable(
    dims: seq<string>,
    shape: seq<nat>,
    attrs: Info,
    data: seq<seq<Cell>>,
    coords: set<string>)

  /** A 2-D variable's values are a grid of its shape. */
  ghost predicate WellFormed(v: Variable)
  {
    |v.dims| == |v.shape| && (|v.shape| == 2 ==> IsGrid(v.data, v.shape[0], v.shape[1]))
  }

  /** The opened file: variable names in file order (Python dictionaries keep insertion
      order, and the dynamic datasets are discovered in that order) and the variables. */
  datatype Dataset = Dataset(names: seq<string>, vars: map<string, Variable>)

  ghost predicate ValidDataset(ds: Dataset)
  {
    && (forall i, j :: 0 <= i < j < |ds.names| ==> ds.names[i] != ds.names[j])
    && (forall n :: n in ds.names <==> n in ds.vars)
    && (forall n :: n in ds.vars ==> WellFormed(ds.vars[n]))
  }

  /** `dim in ds.dims`: some variable of the dataset has that dimension. */
  predicate HasDim(ds: Dataset, dim: string)
  {
    exists n :: n in ds.vars && dim in ds.vars[n].dims
  }
}
