// The HDF5 file of the L0 file writer, as far as the visibility stream goes:
// a visibility frame is stored as real/imaginary pairs by viewing each
// complex element as two 32-bit floats, and every frame grows the
// visibility and flag datasets by one row; both datasets are created, with
// the shape of the first frame, when the first frame arrives.

module FileWriter {
  import opened Wrappers

  /** A numpy dtype, as far as _split_array looks at it. */
  datatype DType = DType(str: string, itemsize: nat, hasObject: bool)

  const FLOAT32 := DType("<f4", 4, false)
  const COMPLEX64 := DType("<c8", 8, false)

  /** The array interface of an array: its dtype, shape, strides (None for
      a contiguous array) and whether it carries a mask. */
  datatype ArrayInfo = ArrayInfo(dtype: DType, shape: seq<nat>, strides: Option<seq<int>>, masked: bool)

  const OBJECT_DTYPES := "ValueError: dtypes containing objects are not supported"
  const UNEVEN_ITEMSIZE := "ValueError: item size does not evenly divide"
  const MASKED_ARRAY := "ValueError: masked arrays are not supported"
  const ZERO_DIVISION := "ZeroDivisionError: integer division or modulo by zero"
  const CANNOT_BROADCAST := "TypeError: Can't broadcast"

  /** _split_array: a view with one more axis, each element of the array
      read as itemsize-ratio elements of the new dtype. */
  function SplitArray(a: ArrayInfo, out: DType): (r: Result<ArrayInfo>)
    ensures r.Ok? <==> !a.dtype.hasObject && !out.hasObject && out.itemsize > 0 &&
                       a.dtype.itemsize % out.itemsize == 0 && !a.masked
    ensures r.Ok? ==> r.value.dtype == out && !r.value.masked &&
                      |r.value.shape| == |a.shape| + 1 && r.value.shape[..|a.shape|] == a.shape &&
                      r.value.shape[|a.shape|] * out.itemsize == a.dtype.itemsize
    ensures r.Ok? ==> (a.strides.None? ==> r.value.strides.None?) &&
                      (a.strides.Some? ==> r.value.strides == Some(a.strides.value + [out.itemsize as int]))
  {
    if a.dtype.hasObject || out.hasObject then Err(OBJECT_DTYPES)
    else if out.itemsize == 0 then Err(ZERO_DIVISION)
    else if a.dtype.itemsize % out.itemsize != 0 then Err(UNEVEN_ITEMSIZE)
    else if a.masked then Err(MASKED_ARRAY)
    else
      var strides := if a.strides.Some? then Some(a.strides.value + [out.itemsize as int]) else None;
      var shape := a.shape + [a.dtype.itemsize / out.itemsize];
      assert shape[..|a.shape|] == a.shape;
      Ok(ArrayInfo(out, shape, strides, false))
  }

  /** The checks raise in their order in the source: objects first, then
      the item size, then the mask. */
  lemma SplitArrayErrors(a: ArrayInfo, out: DType)
    ensures a.dtype.hasObject || out.hasObject ==> SplitArray(a, out) == Err(OBJECT_DTYPES)
    ensures !a.dtype.hasObject && !out.hasObject && out.itemsize > 0 && a.dtype.itemsize % out.itemsize != 0 ==>
      SplitArray(a, out) == Err(UNEVEN_ITEMSIZE)
    ensures (!a.dtype.hasObject && !out.hasObject && out.itemsize > 0 && a.dtype.itemsize % out.itemsize == 0 &&
             a.masked) ==> SplitArray(a, out) == Err(MASKED_ARRAY)
  {
  }

  /** The number of elements of a shape. */
  function Product(shape: seq<nat>): nat
  {
    if shape == [] then 1 else Product(shape[..|shape| - 1]) * shape[|shape| - 1]
  }

  function Bytes(a: ArrayInfo): nat
  {
    Product(a.shape) * a.dtype.itemsize
  }

  /** The view covers exactly the bytes of the array. */
  lemma SplitKeepsBytes(a: ArrayInfo, out: DType)
    requires SplitArray(a, out).Ok?
    ensures Bytes(SplitArray(a, out).value) == Bytes(a)
  {
    var v := SplitArray(a, out).value;
    assert v.shape[..|v.shape| - 1] == a.shape;
    calc {
      Bytes(v);
      Product(a.shape) * v.shape[|a.shape|] * out.itemsize;
      Product(a.shape) * (v.shape[|a.shape|] * out.itemsize);
      Bytes(a);
    }
  }

  /** A complex64 frame splits into float pairs. */
  lemma ComplexSplitsInPairs(vis: ArrayInfo)
    requires vis.dtype == COMPLEX64 && !vis.masked
    ensures SplitArray(vis, FLOAT32).Ok? && SplitArray(vis, FLOAT32).value.shape == vis.shape + [2]
  {
    var v := SplitArray(vis, FLOAT32).value;
    assert v.shape == v.shape[..|vis.shape|] + [v.shape[|vis.shape|]];
  }

  /** A dataset row: still zero after a resize, or written. */
  datatype Row = Zeros | Written(a: ArrayInfo)

  /** A dataset that grows along its first axis: its row shape and rows. */
  datatype Dataset = Dataset(rowShape: seq<nat>, rows: seq<Row>)

  /** The visibility and flag datasets of the file. */
  datatype FileState = FileState(createdData: bool, cbf: Option<Dataset>, flags: Option<Dataset>)

  /** Both datasets exist from _create_data on, one row per frame each. */
  predicate ValidState(s: FileState)
  {
    (s.createdData <==> s.cbf.Some?) && (s.createdData <==> s.flags.Some?) &&
    (s.createdData ==> |s.cbf.value.rows| == |s.flags.value.rows|)
  }

  /** _create_data: visibilities with a real/imaginary axis, flags with the
      frame shape, both empty. */
  function Created(shape: seq<nat>): FileState
  {
    FileState(true, Some(Dataset(shape + [2], [])), Some(Dataset(shape, [])))
  }

  /** Writing a value into a row: the shapes must agree. */
  function WriteRow(d: Dataset, idx: nat, a: ArrayInfo): Result<Dataset>
    requires idx < |d.rows|
  {
    if a.shape != d.rowShape then Err(CANNOT_BROADCAST)
    else Ok(Dataset(d.rowShape, d.rows[idx := Written(a)]))
  }

  /** add_data_frame on the datasets: create them on first use, grow both
      by a zero row, then write the split visibilities and the flags; an
      error leaves the rows written so far. */
  function AddFrame(s: FileState, vis: ArrayInfo, flags: ArrayInfo): (FileState, Result<()>)
    requires ValidState(s)
  {
    var s1 := if !s.createdData then Created(vis.shape) else s;
    var cbf, fl := s1.cbf.value, s1.flags.value;
    var idx := |cbf.rows|;
    var cbf2, fl2 := Dataset(cbf.rowShape, cbf.rows + [Zeros]), Dataset(fl.rowShape, fl.rows + [Zeros]);
    var grown := FileState(true, Some(cbf2), Some(fl2));
    match SplitArray(vis, FLOAT32)
    case Err(e) => (grown, Err(e))
    case Ok(pairs) =>
      match WriteRow(cbf2, idx, pairs)
      case Err(e) => (grown, Err(e))
      case Ok(cbf3) =>
        match WriteRow(fl2, idx, flags)
        case Err(e) => (FileState(true, Some(cbf3), Some(fl2)), Err(e))
        case Ok(fl3) => (FileState(true, Some(cbf3), Some(fl3)), Ok(()))
  }

  /** Each frame grows both datasets by exactly one row, whatever happens
      after the resize; the datasets are created with the first frame's
      shape and keep their shapes afterwards. */
  lemma AddFrameGrows(s: FileState, vis: ArrayInfo, flags: ArrayInfo)
    requires ValidState(s)
    ensures var (t, _) := AddFrame(s, vis, flags);
      ValidState(t) && t.createdData &&
      |t.cbf.value.rows| == (if s.createdData then |s.cbf.value.rows| else 0) + 1 &&
      (s.createdData ==> t.cbf.value.rowShape == s.cbf.value.rowShape && t.flags.value.rowShape == s.flags.value.rowShape &&
                         t.cbf.value.rows[..|s.cbf.value.rows|] == s.cbf.value.rows &&
                         t.flags.value.rows[..|s.flags.value.rows|] == s.flags.value.rows) &&
      (!s.createdData ==> t.cbf.value.rowShape == vis.shape + [2] && t.flags.value.rowShape == vis.shape)
  {
  }

  /** A complex64 frame whose shape and flags match the datasets is stored
      whole: its float pairs and its flags become the new last rows. */
  lemma AddFrameStores(s: FileState, vis: ArrayInfo, flags: ArrayInfo)
    requires ValidState(s) && vis.dtype == COMPLEX64 && !vis.masked
    requires s.createdData ==> s.cbf.value.rowShape == vis.shape + [2] && s.flags.value.rowShape == vis.shape
    requires flags.shape == vis.shape
    ensures var (t, r) := AddFrame(s, vis, flags);
      r == Ok(()) &&
      t.cbf.value.rows[|t.cbf.value.rows| - 1] == Written(SplitArray(vis, FLOAT32).value) &&
      t.flags.value.rows[|t.flags.value.rows| - 1] == Written(flags)
  {
    ComplexSplitsInPairs(vis);
  }

  /** A frame of another shape than the first is refused after its rows
      were added. */
  lemma AddFrameMismatch(s: FileState, vis: ArrayInfo, flags: ArrayInfo)
    requires ValidState(s) && s.createdData && vis.dtype == COMPLEX64 && !vis.masked
    requires s.cbf.value.rowShape != vis.shape + [2]
    ensures var (t, r) := AddFrame(s, vis, flags);
      r == Err(CANNOT_BROADCAST) && |t.cbf.value.rows| == |s.cbf.value.rows| + 1 &&
      t.cbf.value.rows[|s.cbf.value.rows|] == Zeros
  {
    ComplexSplitsInPairs(vis);
  }

  class File {
    var createdData: bool
    /** /Data/correlator_data */
    var cbf: Option<Dataset>
    /** /Data/flags */
    var flags: Option<Dataset>

    function State(): FileState
      reads this
    {
      FileState(createdData, cbf, flags)
    }

    ghost predicate Valid()
      reads this
    {
      ValidState(State())
    }

    /** A new file: the Data group, no datasets yet. */
    constructor ()
      ensures Valid() && !createdData && cbf.None? && flags.None?
    {
      createdData := false;
      cbf := None;
      flags := None;
    }

    /** _create_data */
    method CreateData(shape: seq<nat>)
      modifies this
      ensures State() == Created(shape) && Valid()
    {
      cbf := Some(Dataset(shape + [2], []));
      flags := Some(Dataset(shape, []));
      createdData := true;
    }

    /** add_data_frame */
    method AddDataFrame(vis: ArrayInfo, frameFlags: ArrayInfo) returns (r: Result<()>)
      requires Valid()
      modifies this
      ensures Valid()
      ensures (State(), r) == AddFrame(old(State()), vis, frameFlags)
    {
      if !createdData {
        CreateData(vis.shape);
      }
      var idx := |cbf.value.rows|;
      cbf := Some(Dataset(cbf.value.rowShape, cbf.value.rows + [Zeros]));
      flags := Some(Dataset(flags.value.rowShape, flags.value.rows + [Zeros]));
      var pairs := SplitArray(vis, FLOAT32);
      if pairs.Err? {
        return Err(pairs.error);
      }
      if pairs.value.shape != cbf.value.rowShape {
        return Err(CANNOT_BROADCAST);
      }
      cbf := Some(Dataset(cbf.value.rowShape, cbf.value.rows[idx := Written(pairs.value)]));
      if frameFlags.shape != flags.value.rowShape {
        return Err(CANNOT_BROADCAST);
      }
      flags := Some(Dataset(flags.value.rowShape, flags.value.rows[idx := Written(frameFlags)]));
      r := Ok(());
    }
  }
}
