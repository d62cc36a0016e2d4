/**
 * The crate root: per-query match records, their conversions, and the assemblers
 * (`FromShapeIter`) that scatter an ordered sequence of records into the output arrays.
 */
module Lib {
  import opened Floats

  /** A 2-D f64 table (an `ArrayView2`), one inner sequence per row. */
  type Table = seq<seq<Float>>

  /** Every row of `t` has exactly `cols` entries: `t` has shape (|t|, cols). */
  ghost predicate IsTable(t: Table, cols: nat)
  {
    forall i :: 0 <= i < |t| ==> |t[i]| == cols
  }

  /** Every row of `t` has at least `w` entries, so columns 0..w can be read. */
  ghost predicate MinWidth(t: Table, w: nat)
  {
    forall i :: 0 <= i < |t| ==> w <= |t[i]|
  }

  /** `SingleIndexDistance`: the winning reference row and its squared distance. */
  datatype IndexRecord = IndexRecord(index: nat, distance: Float)

  /** `SinglePointDistance<DIM>`: an owned copy of the winning point and its distance. */
  datatype PointRecord = PointRecord(point: seq<Float>, distance: Float)

  /** `SinglePointDistanceRef<DIM>`: a borrowed `&[f64; DIM]` and the distance. */
  datatype PointRefRecord = PointRefRecord(point: array<Float>, distance: Float)

  /** `IndexAndDistance`: one index and one distance per query row. */
  datatype IndexAndDistance = IndexAndDistance(index: seq<nat>, distance: seq<Float>)

  /** `LocationAndDistance`: the location table (one row per query row) and the distances. */
  datatype LocationAndDistance = LocationAndDistance(location: Table, distance: seq<Float>)

  /**
   * `r` is the index aggregate of shape `rows` built from `records`: record i fills row i,
   * every row no record reaches keeps the zero it was allocated with.
   */
  ghost predicate IndexScattered(r: IndexAndDistance, records: seq<IndexRecord>, rows: nat)
  {
    |records| <= rows && |r.index| == rows && |r.distance| == rows &&
    (forall i :: 0 <= i < rows ==> r.index[i] == if i < |records| then records[i].index else 0) &&
    (forall i :: 0 <= i < rows ==> r.distance[i] == if i < |records| then records[i].distance else Zero)
  }

  /**
   * `r` is the location aggregate of shape (rows, cols) built from `records` of dimension
   * `dim`: record i fills columns 0..dim of row i and distance i; every other cell is zero.
   */
  ghost predicate LocationScattered(r: LocationAndDistance, records: seq<PointRecord>, rows: nat, cols: nat, dim: nat)
  {
    |records| <= rows &&
    (forall i :: 0 <= i < |records| ==> |records[i].point| == dim) &&
    |r.location| == rows && |r.distance| == rows &&
    (forall i :: 0 <= i < rows ==> |r.location[i]| == cols) &&
    (forall i, c :: 0 <= i < rows && 0 <= c < cols ==>
      r.location[i][c] == if i < |records| && c < dim then records[i].point[c] else Zero) &&
    (forall i :: 0 <= i < rows ==> r.distance[i] == if i < |records| then records[i].distance else Zero)
  }

  /** An index aggregate is fully determined by its records and its shape. */
  lemma IndexScatteredUnique(r1: IndexAndDistance, r2: IndexAndDistance, records: seq<IndexRecord>, rows: nat)
    requires IndexScattered(r1, records, rows) && IndexScattered(r2, records, rows)
    ensures r1 == r2
  {
  }

  /**
   * A location aggregate is fully determined by its records and its shape; in particular
   * the borrowed-record assembler and the owned-record assembler agree on equal records.
   */
  lemma LocationScatteredUnique(r1: LocationAndDistance, r2: LocationAndDistance, records: seq<PointRecord>, rows: nat, cols: nat, dim: nat)
    requires LocationScattered(r1, records, rows, cols, dim)
    requires LocationScattered(r2, records, rows, cols, dim)
    ensures r1 == r2
  {
    forall i | 0 <= i < rows
      ensures r1.location[i] == r2.location[i]
    {
      assert |r1.location[i]| == |r2.location[i]|;
      forall c | 0 <= c < cols
        ensures r1.location[i][c] == r2.location[i][c]
      {
      }
    }
    assert r1.location == r2.location;
    assert r1.distance == r2.distance;
  }

  /** The rows of a 2-D array, as a table value. */
  function Rows(a: array2<Float>): (t: Table)
    reads a
    ensures |t| == a.Length0 && IsTable(t, a.Length1)
    ensures forall i, j :: 0 <= i < a.Length0 && 0 <= j < a.Length1 ==> t[i][j] == a[i, j]
  {
    seq(a.Length0, i requires 0 <= i < a.Length0 reads a =>
      seq(a.Length1, j requires 0 <= j < a.Length1 reads a => a[i, j]))
  }

  /** `FromShapeIter<DIM, SingleIndexDistance> for IndexAndDistance` */
  method IndexAndDistanceFromShapeIter(records: seq<IndexRecord>, shape: (nat, nat)) returns (r: IndexAndDistance)
    requires |records| <= shape.0
    ensures IndexScattered(r, records, shape.0)
  {
    var index := new nat[shape.0](_ => 0);
    var distance := new Float[shape.0](_ => Zero);
    for row := 0 to |records|
      invariant forall i :: 0 <= i < shape.0 ==> index[i] == if i < row then records[i].index else 0
      invariant forall i :: 0 <= i < shape.0 ==> distance[i] == if i < row then records[i].distance else Zero
    {
      index[row] := records[row].index;
      distance[row] := records[row].distance;
    }
    r := IndexAndDistance(index[..], distance[..]);
  }

  /** `FromShapeIter<DIM, SinglePointDistance<DIM>> for LocationAndDistance` (owned points) */
  method LocationAndDistanceFromShapeIter(records: seq<PointRecord>, shape: (nat, nat), dim: nat)
    returns (r: LocationAndDistance)
    requires |records| <= shape.0
    requires forall i :: 0 <= i < |records| ==> |records[i].point| == dim
    requires |records| > 0 ==> dim <= shape.1
    ensures LocationScattered(r, records, shape.0, shape.1, dim)
  {
    var location := new Float[shape.0, shape.1]((_, _) => Zero);
    var distance := new Float[shape.0](_ => Zero);
    for row := 0 to |records|
      invariant forall i, c :: 0 <= i < shape.0 && 0 <= c < shape.1 ==>
        location[i, c] == if i < row && c < dim then records[i].point[c] else Zero
      invariant forall i :: 0 <= i < shape.0 ==> distance[i] == if i < row then records[i].distance else Zero
    {
      for col := 0 to dim
        invariant forall i, c :: 0 <= i < shape.0 && 0 <= c < shape.1 ==>
          location[i, c] == if (i < row && c < dim) || (i == row && c < col) then records[i].point[c] else Zero
        invariant forall i :: 0 <= i < shape.0 ==> distance[i] == if i < row then records[i].distance else Zero
      {
        location[row, col] := records[row].point[col];
      }
      distance[row] := records[row].distance;
    }
    r := LocationAndDistance(Rows(location), distance[..]);
  }

  /** The owned records a sequence of borrowed records points at. */
  function Deref(records: seq<PointRefRecord>): (owned: seq<PointRecord>)
    reads set i | 0 <= i < |records| :: records[i].point
    ensures |owned| == |records|
    ensures forall i :: 0 <= i < |records| ==>
      owned[i].point == records[i].point[..] && owned[i].distance == records[i].distance
  {
    seq(|records|, i requires 0 <= i < |records| reads set j | 0 <= j < |records| :: records[j].point =>
      PointRecord(records[i].point[..], records[i].distance))
  }

  /** `FromShapeIter<DIM, SinglePointDistanceRef<DIM>> for LocationAndDistance` (borrowed points) */
  method LocationAndDistanceFromRefShapeIter(records: seq<PointRefRecord>, shape: (nat, nat), dim: nat)
    returns (r: LocationAndDistance)
    requires |records| <= shape.0
    requires forall i :: 0 <= i < |records| ==> records[i].point.Length == dim
    requires |records| > 0 ==> dim <= shape.1
    ensures LocationScattered(r, Deref(records), shape.0, shape.1, dim)
  {
    var location := new Float[shape.0, shape.1]((_, _) => Zero);
    var distance := new Float[shape.0](_ => Zero);
    for row := 0 to |records|
      invariant forall i, c :: 0 <= i < shape.0 && 0 <= c < shape.1 ==>
        location[i, c] == if i < row && c < dim then records[i].point[c] else Zero
      invariant forall i :: 0 <= i < shape.0 ==> distance[i] == if i < row then records[i].distance else Zero
    {
      for col := 0 to dim
        invariant forall i, c :: 0 <= i < shape.0 && 0 <= c < shape.1 ==>
          location[i, c] == if (i < row && c < dim) || (i == row && c < col) then records[i].point[c] else Zero
        invariant forall i :: 0 <= i < shape.0 ==> distance[i] == if i < row then records[i].distance else Zero
      {
        location[row, col] := records[row].point[col];
      }
      distance[row] := records[row].distance;
    }
    r := LocationAndDistance(Rows(location), distance[..]);
  }

  /**
   * `From<(SingleIndexDistance, ArrayView2)> for SinglePointDistance<DIM>`, as a value:
   * the first `dim` columns of the winning reference row, with the match distance.
   */
  function LocationOf(rec: IndexRecord, line: Table, dim: nat): (p: PointRecord)
    requires rec.index < |line| && dim <= |line[rec.index]|
    ensures |p.point| == dim && p.distance == rec.distance
    ensures forall col :: 0 <= col < dim ==> p.point[col] == line[rec.index][col]
  {
    PointRecord(line[rec.index][..dim], rec.distance)
  }

  /** The same conversion as the source performs it, filling a `[f64; DIM]` column by column. */
  method SinglePointFrom(rec: IndexRecord, line: Table, dim: nat) returns (p: PointRecord)
    requires rec.index < |line| && dim <= |line[rec.index]|
    ensures |p.point| == dim && p.distance == rec.distance
    ensures forall col :: 0 <= col < dim ==> p.point[col] == line[rec.index][col]
    ensures p == LocationOf(rec, line, dim)
  {
    var point := new Float[dim](_ => Zero);
    for col := 0 to dim
      invariant forall c :: 0 <= c < col ==> point[c] == line[rec.index][c]
    {
      point[col] := line[rec.index][col];
    }
    assert point[..] == line[rec.index][..dim];
    p := PointRecord(point[..], rec.distance);
  }

  /** `From<(SingleIndexDistance, ArrayView2)> for SingleIndexDistance`: the table is ignored. */
  function IndexFrom(rec: IndexRecord, line: Table): (r: IndexRecord)
    ensures r == rec
  {
    rec
  }

  /** `copy_to_array::<DIM>`: the first `dim` entries of a 1-D view, in order. */
  method CopyToArray(arr: seq<Float>, dim: nat) returns (point: seq<Float>)
    requires dim <= |arr|
    ensures point == arr[..dim]
  {
    var a := new Float[dim](_ => Zero);
    for col := 0 to dim
      invariant forall c :: 0 <= c < col ==> a[c] == arr[c]
    {
      a[col] := arr[col];
    }
    point := a[..];
  }
}
