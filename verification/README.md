# Brute-force nearest-neighbour matching engine

This project models the brute-force path of the `toha_nearest_neighbor` Rust crate and proves properties of it in Dafny.

For every row of a query table, the brute-force path finds the reference row ("line point") at the smallest squared Euclidean distance. It works on columns 0 and 1. It reports either the row's index or a copy of its location, with that distance. The records are then scattered into zero-initialised output arrays.

The model has three modules:

- `Floats` (floats.dfy) models f64. A finite value is an exact `real`, and NaN is an explicit value. Only `<`, `is_nan`, subtraction, `powi(2)` and addition are modelled, with NaN propagation. `NotWorse` is an independent ranking of distances: NaN last, finite values by size. The tie-break is proved against it.
- `Lib` (lib.dfy) models src/lib.rs:
  - the record types;
  - the three `FromShapeIter` assemblers, as methods that fill locally allocated `array`/`array2` buffers in loops;
  - the two `From` conversions;
  - `copy_to_array`.
- `BruteForce` (brute_force.dfy) models src/brute_force.rs:
  - `minimize_float`;
  - `Iterator::reduce`, as a left fold;
  - `min_distance_to_point`;
  - the serial and parallel drivers;
  - the four public entry points;
  - the scenarios from the unit tests.

The model follows the code in these respects:

- An empty reference set with at least one query row panics: `reduce` yields `None` and `unwrap` panics, so the matcher requires at least one reference row. With no query rows, the closure never runs and nothing panics. The drivers require reference rows only when there are queries.
- There is no dimension-mismatch check. Columns 0 and 1 of every row are read unconditionally, so rows must have at least two columns.
- The location table has the query table's shape `(rows, cols)`, because `from_shape_iter` receives `points_to_match.dim()`. Columns `DIM..cols` stay zero.
- brute_force.rs uses a one-parameter `FromShapeIter<SINGLE>`, while lib.rs declares `FromShapeIter<DIM, A>`. The model follows lib.rs: the assemblers and `From` conversions take `dim`, and the brute-force path uses `Dim = 2`.

## Model

| member | source | states |
|---|---|---|
| BruteForce.MinimizeFloat | src/brute_force.rs:152-174 | Keeps the left record exactly when its distance is `NotWorse` than the right one's (NaN ranks last). So: a strictly smaller distance wins on either side, equal distances keep the left record, a NaN distance loses to a non-NaN one on either side, and two NaNs keep the left record. |
| BruteForce.DistanceOf | src/brute_force.rs:50-54 | The `Distance` impl for an index record reads its distance field. |
| BruteForce.Fold | src/brute_force.rs:148 | The left fold that `reduce` runs after taking its first element returns either its accumulator or one of the remaining elements. |
| BruteForce.Reduce | src/brute_force.rs:148 | `reduce` yields a value exactly when the sequence is non-empty, and that value is one of the sequence's elements. |
| BruteForce.FoldIsEarliestBest | src/brute_force.rs:148 | Folding the remaining records into the earliest best record of a prefix gives the earliest best record of the whole sequence. Earliest best means no record is better and every earlier record is strictly worse. |
| BruteForce.ReduceIsEarliestBest | src/brute_force.rs:148 | `reduce(minimize_float)` on a non-empty sequence returns the element at the unique earliest position whose distance no other element beats. |
| BruteForce.EarliestBestUnique | src/brute_force.rs:148 | At most one position is the earliest best one, so the reduction's result is fully determined. |
| BruteForce.SquaredDistance | src/brute_force.rs:136-141 | The distance is NaN exactly when one of the four coordinates read is NaN. Otherwise it is `(qx-rx)^2 + (qy-ry)^2`, which is at least 0. |
| BruteForce.Candidates | src/brute_force.rs:132-147 | The definition of the `enumerate().map(..)` stream: record j carries reference row index j and the squared distance from the query point to row j, one record per reference row. What the reduction makes of it is stated by `CandidatesReduce`. |
| BruteForce.CandidatesReduce | src/brute_force.rs:132-149 | The reduction over the candidates yields a record. Its index is in range, it is the candidate for that row, and that row is the earliest best one. |
| BruteForce.MinDistanceToPoint | src/brute_force.rs:128-150 | Returns an index in `[0, N)` with that row's squared distance. No row has a smaller non-NaN distance. Every earlier row has a different distance, so the result is the earliest minimal row. If the winning distance is NaN (every distance NaN), the index is 0. Requires N >= 1, the `unwrap`. |
| BruteForce.MatchRow | src/brute_force.rs:78-83 | The per-query closure reads columns 0 and 1 of the query row. It returns an in-range reference row with its own squared distance to that point. No row ranks better, and every earlier row has a different distance. |
| BruteForce.BruteForce | src/brute_force.rs:70-88 | Produces exactly one record per query row, in row order. Record i is the `from` conversion of the match for query row i. |
| BruteForce.BruteForcePar | src/brute_force.rs:104-126 | Produces exactly one record per query row, collected back by position. Record i is the `from` conversion of the match for query row i. |
| BruteForce.BruteForceParIsSerial | src/brute_force.rs:104-126 | The order-preserving parallel collect returns the same sequence as the serial driver. |
| BruteForce.PointFrom | src/brute_force.rs:83 | `SINGLE::from` for location records at DIM = 2: a point of two entries equal to columns 0 and 1 of the winning reference row, with the match distance. |
| BruteForce.LocationMatchIsNearestPoint | src/brute_force.rs:70-88 | A location record holds the first two columns of some reference row. Its distance is the squared distance from the query to that location, and no reference row is strictly closer. |
| BruteForce.BruteForceIndex | src/brute_force.rs:19-24 | The index aggregate has one row per query row. Row i holds the index and distance of the match for query row i. |
| BruteForce.BruteForceIndexPar | src/brute_force.rs:33-38 | Has the same postcondition as the serial entry point. With `IndexScatteredUnique`, the parallel and serial outputs are equal. |
| BruteForce.BruteForceLocation | src/brute_force.rs:12-17 | The location aggregate has the query table's shape. Row i holds the winning reference point in columns 0..2, zeros beyond, and its distance. |
| BruteForce.BruteForceLocationPar | src/brute_force.rs:26-31 | Has the same postcondition as the serial entry point. With `LocationScatteredUnique`, the parallel and serial outputs are equal. |
| BruteForce.ExampleDistances | src/brute_force.rs:266-275 | Gives the squared distances from (1.1, 0.1) to rows (0,0), (1,0), (2,1) and (3,2): 1.22, 0.02, 1.62 and 7.22. |
| BruteForce.NearestNeighborSingle | src/brute_force.rs:266-275 | For those rows and that query, the match is row 1 at distance 0.02, and its location is (1, 0). |
| BruteForce.TieGoesToEarlierRow | src/brute_force.rs:217-231 | Checks the equal-distance rule of the `minimize_eq` test one level up, through the matcher: rows (0,0) and (2,0) are both at distance 1 from (1,0), and the earlier row 0 is returned. |
| BruteForce.NaNRowNeverWins | src/brute_force.rs:233-247 | Checks the NaN-on-the-left rule of the `minimize_left_nan` test one level up, through the matcher: a reference row with a NaN coordinate loses to a later row with a finite distance. |
| Lib.IndexAndDistanceFromShapeIter | src/lib.rs:25-41 | The index and distance arrays have `cloud_shape.0` entries. Entry i holds record i's fields, and entries no record reaches stay 0. Requires no more records than rows. |
| Lib.LocationAndDistanceFromShapeIter | src/lib.rs:72-91 | `location` has shape `cloud_shape`. Row i, columns 0..DIM, holds record i's point. All other cells stay 0. `distance[i]` is record i's distance, or 0 past the records. Requires no more records than rows, and `DIM <= cols` when there is a record. |
| Lib.LocationAndDistanceFromRefShapeIter | src/lib.rs:49-70 | The borrowed-point assembler has the owned assembler's postcondition on the points the references designate. With `LocationScatteredUnique`, both give the same output for equal point values and distances. |
| Lib.IndexScatteredUnique | src/lib.rs:25-41 | An index aggregate is determined by its records and row count. |
| Lib.LocationScatteredUnique | src/lib.rs:49-91 | A location aggregate is determined by its records, shape and dimension. |
| Lib.LocationOf | src/lib.rs:105-122 | Converting an index record gives a point of DIM entries with `point[col] = reference[index][col]`, and the same distance. Requires `index < rows` and `DIM <= cols`, because `uget` is unchecked. |
| Lib.SinglePointFrom | src/lib.rs:108-121 | Filling `[f64; DIM]` column by column produces the record `LocationOf` describes. |
| Lib.IndexFrom | src/lib.rs:137-141 | Returns the index record unchanged and ignores the reference table. |
| Lib.CopyToArray | src/lib.rs:144-152 | Returns the first DIM entries of the input, in order. Requires DIM entries to exist. |

## Left out

- src/tree.rs, the kd-tree strategy, is not part of this model. It delegates construction, nearest-point search and tie-breaking to the external `kd_tree` crate, whose code is not available. The borrowed-point assembler it feeds is modelled.
- Rayon parallelism: `brute_force_par` is modelled as its result, an index-keyed collect over the query rows. Threads and work splitting are not modelled.
- IEEE-754 detail: rounding of `powi` and `+`, overflow to infinity, infinities in general, and the sign of zero are not modelled. Finite values are exact reals.
- ndarray storage: tables are sequences of rows. Strides, views and `axis_iter` are not modelled. The unchecked `uget` appears only as its bounds precondition.
- The `pybind` module (host binding glue), the benchmarks and the plotting script are not part of this model.
- `SingleIndexPointDistance` (src/lib.rs:124-129) is declared but never used by the core, so it is not modelled.
- A dimension-mismatch error path is not modelled, because the code has none.
