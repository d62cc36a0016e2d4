/**
 * The brute-force matcher: for every query row, a linear scan of the reference rows
 * ("line points") reduced with the NaN-safe, left-biased tie-break, then converted to the
 * requested record form and assembled. The scan reads columns 0 and 1 of every row.
 */
module BruteForce {
  import opened Floats
  import opened Lib

  /** The dimension the scan works in: it reads columns 0 and 1 of every row. */
  const Dim: nat := 2

  /** `Iterator::reduce`'s result: nothing for an empty iterator. */
  datatype Option<T> = None | Some(value: T)

  /** The `Distance` trait for `SingleIndexDistance`. */
  function DistanceOf(rec: IndexRecord): (d: Float)
    ensures d == rec.distance
  {
    rec.distance
  }

  /*
   * Tie-break policy
   */

  /**
   * `minimize_float`: keep the record with the smaller distance; on equal distances, or
   * when both are NaN, keep the left one; a NaN distance never beats a non-NaN one.
   */
  function MinimizeFloat<T>(left: T, right: T, dist: T -> Float): (r: T)
    ensures r == if NotWorse(dist(left), dist(right)) then left else right
    ensures Less(dist(left), dist(right)) ==> r == left
    ensures Less(dist(right), dist(left)) ==> r == right
    ensures dist(left) == dist(right) ==> r == left
    ensures IsNaN(dist(left)) && !IsNaN(dist(right)) ==> r == right
    ensures IsNaN(dist(right)) ==> r == left
  {
    var leftFloat := dist(left);
    var rightFloat := dist(right);
    if Less(leftFloat, rightFloat) then left
    else if Less(rightFloat, leftFloat) then right
    else if IsNaN(leftFloat) && !IsNaN(rightFloat) then right
    else if IsNaN(rightFloat) && !IsNaN(leftFloat) then left
    else left
  }

  /*
   * The sequential reduction
   */

  /** The left fold `reduce` performs once it has taken its first element as accumulator. */
  function Fold<T>(acc: T, rest: seq<T>, dist: T -> Float): (r: T)
    ensures r == acc || r in rest
    decreases |rest|
  {
    if rest == [] then acc else Fold(MinimizeFloat(acc, rest[0], dist), rest[1..], dist)
  }

  /** `Iterator::reduce(minimize_float)` */
  function Reduce<T>(s: seq<T>, dist: T -> Float): (r: Option<T>)
    ensures r.Some? <==> |s| > 0
    ensures r.Some? ==> r.value in s
  {
    if s == [] then None else Some(Fold(s[0], s[1..], dist))
  }

  /**
   * Among the first `n` elements of `s`, position `k` has a distance no other one beats,
   * and every earlier position is strictly worse.
   */
  ghost predicate EarliestBest<T>(s: seq<T>, dist: T -> Float, n: nat, k: nat)
  {
    k < n <= |s| &&
    (forall j :: 0 <= j < n ==> NotWorse(dist(s[k]), dist(s[j]))) &&
    (forall j :: 0 <= j < k ==> !NotWorse(dist(s[j]), dist(s[k])))
  }

  /** At most one position is the earliest best one. */
  lemma EarliestBestUnique<T>(s: seq<T>, dist: T -> Float, n: nat, k1: nat, k2: nat)
    requires EarliestBest(s, dist, n, k1) && EarliestBest(s, dist, n, k2)
    ensures k1 == k2
  {
    assert NotWorse(dist(s[k1]), dist(s[k2])) && NotWorse(dist(s[k2]), dist(s[k1]));
  }

  /** Folding the rest of `s` into the earliest best of a prefix gives the earliest best of `s`. */
  lemma {:induction false} FoldIsEarliestBest<T>(s: seq<T>, dist: T -> Float, i: nat, k: nat) returns (k': nat)
    requires 0 < i <= |s| && EarliestBest(s, dist, i, k)
    ensures EarliestBest(s, dist, |s|, k') && Fold(s[k], s[i..], dist) == s[k']
    decreases |s| - i
  {
    if i == |s| {
      k' := k;
      assert s[i..] == [];
    } else {
      assert s[i..][0] == s[i] && s[i..][1..] == s[i + 1..];
      var k1 := if NotWorse(dist(s[k]), dist(s[i])) then k else i;
      assert Fold(s[k], s[i..], dist) == Fold(MinimizeFloat(s[k], s[i], dist), s[i + 1..], dist);
      assert MinimizeFloat(s[k], s[i], dist) == s[k1] by {
        if NotWorse(dist(s[k]), dist(s[i])) {
          assert k1 == k;
        } else {
          assert k1 == i;
        }
      }
      assert EarliestBest(s, dist, i + 1, k1) by {
        forall j | 0 <= j < i + 1
          ensures NotWorse(dist(s[k1]), dist(s[j]))
        {
          if j < i {
            assert NotWorse(dist(s[k]), dist(s[j]));
          }
        }
        forall j | 0 <= j < k1
          ensures !NotWorse(dist(s[j]), dist(s[k1]))
        {
          if j < k {
            assert !NotWorse(dist(s[j]), dist(s[k]));
          } else {
            assert NotWorse(dist(s[k]), dist(s[j]));
          }
        }
      }
      k' := FoldIsEarliestBest(s, dist, i + 1, k1);
    }
  }

  /** `reduce(minimize_float)` yields the earliest element of minimal distance (NaN last). */
  lemma ReduceIsEarliestBest<T>(s: seq<T>, dist: T -> Float) returns (k: nat)
    requires |s| > 0
    ensures EarliestBest(s, dist, |s|, k) && Reduce(s, dist) == Some(s[k])
  {
    k := FoldIsEarliestBest(s, dist, 1, 0);
  }

  /*
   * The matcher for one query point
   */

  /** The squared Euclidean distance between a query point and the first two columns of a row. */
  function SquaredDistance(point: seq<Float>, row: seq<Float>): (d: Float)
    requires |point| == Dim && Dim <= |row|
    ensures d.NaN? <==> point[0].NaN? || point[1].NaN? || row[0].NaN? || row[1].NaN?
    ensures d.Fin? ==> d.r >= 0.0
    ensures d.Fin? ==>
      d.r == (point[0].r - row[0].r) * (point[0].r - row[0].r) + (point[1].r - row[1].r) * (point[1].r - row[1].r)
  {
    Add(Square(Sub(point[0], row[0])), Square(Sub(point[1], row[1])))
  }

  /** The records `enumerate().map(..)` feeds to the reduction: row index and its distance. */
  function Candidates(line: Table, point: seq<Float>): (c: seq<IndexRecord>)
    requires |point| == Dim && MinWidth(line, Dim)
    ensures |c| == |line|
    ensures forall j :: 0 <= j < |line| ==> c[j] == IndexRecord(j, SquaredDistance(point, line[j]))
  {
    seq(|line|, j requires 0 <= j < |line| => IndexRecord(j, SquaredDistance(point, line[j])))
  }

  /** The reduction over the candidates picks the earliest best reference row. */
  lemma CandidatesReduce(line: Table, point: seq<Float>)
    requires |line| > 0 && |point| == Dim && MinWidth(line, Dim)
    ensures Reduce(Candidates(line, point), DistanceOf).Some?
    ensures var r := Reduce(Candidates(line, point), DistanceOf).value;
      r.index < |line| && r == Candidates(line, point)[r.index] &&
      EarliestBest(Candidates(line, point), DistanceOf, |line|, r.index)
  {
    var c := Candidates(line, point);
    var k := ReduceIsEarliestBest(c, DistanceOf);
    assert c[k].index == k;
  }

  /**
   * `min_distance_to_point`: the earliest reference row at minimal squared distance from
   * `point`, NaN distances losing to every finite one; row 0 when every distance is NaN.
   * An empty reference set makes `reduce` yield nothing and `unwrap` panic.
   */
  function MinDistanceToPoint(line: Table, point: seq<Float>): (r: IndexRecord)
    requires |line| > 0 && |point| == Dim && MinWidth(line, Dim)
    ensures r.index < |line| && r.distance == SquaredDistance(point, line[r.index])
    ensures forall j :: 0 <= j < |line| && SquaredDistance(point, line[j]).Fin? ==>
      r.distance.Fin? && r.distance.r <= SquaredDistance(point, line[j]).r
    ensures forall j :: 0 <= j < r.index ==> SquaredDistance(point, line[j]) != r.distance
    ensures r.distance.NaN? ==> r.index == 0
  {
    CandidatesReduce(line, point);
    var r := Reduce(Candidates(line, point), DistanceOf).value;
    assert forall j :: 0 <= j < |line| ==> NotWorse(r.distance, SquaredDistance(point, line[j])) by {
      assert forall j :: 0 <= j < |line| ==> DistanceOf(Candidates(line, point)[j]) == SquaredDistance(point, line[j]);
    }
    r
  }

  /** The per-query closure of the drivers: read columns 0 and 1 and match that point. */
  function MatchRow(line: Table, query: seq<Float>): (r: IndexRecord)
    requires |line| > 0 && MinWidth(line, Dim) && Dim <= |query|
    ensures r.index < |line| && r.distance == SquaredDistance([query[0], query[1]], line[r.index])
    ensures forall j :: 0 <= j < |line| ==> NotWorse(r.distance, SquaredDistance([query[0], query[1]], line[j]))
    ensures forall j :: 0 <= j < r.index ==> SquaredDistance([query[0], query[1]], line[j]) != r.distance
  {
    MinDistanceToPoint(line, [query[0], query[1]])
  }

  /*
   * The drivers
   */

  /** What every driver demands: two readable columns, and reference rows whenever there are queries. */
  ghost predicate ValidInput(line: Table, queries: Table)
  {
    MinWidth(queries, Dim) && (|queries| > 0 ==> |line| > 0 && MinWidth(line, Dim))
  }

  /**
   * `brute_force`: the query rows matched one after another, in row order, each match
   * converted with `from` (the `SINGLE::from` conversion).
   */
  function BruteForce<R>(line: Table, queries: Table, from: (IndexRecord, Table) --> R): (r: seq<R>)
    requires ValidInput(line, queries)
    requires |queries| > 0 ==> forall rec: IndexRecord :: rec.index < |line| ==> from.requires(rec, line)
    ensures |r| == |queries|
    ensures forall i :: 0 <= i < |queries| ==> r[i] == from(MatchRow(line, queries[i]), line)
    decreases |queries|
  {
    if queries == [] then []
    else [from(MatchRow(line, queries[0]), line)] + BruteForce(line, queries[1..], from)
  }

  /**
   * `brute_force_par`: every query row matched independently and collected back by its
   * position, as the order-preserving parallel collect does.
   */
  function BruteForcePar<R>(line: Table, queries: Table, from: (IndexRecord, Table) --> R): (r: seq<R>)
    requires ValidInput(line, queries)
    requires |queries| > 0 ==> forall rec: IndexRecord :: rec.index < |line| ==> from.requires(rec, line)
    ensures |r| == |queries|
    ensures forall i :: 0 <= i < |queries| ==> r[i] == from(MatchRow(line, queries[i]), line)
  {
    seq(|queries|, i requires 0 <= i < |queries| => from(MatchRow(line, queries[i]), line))
  }

  /** The parallel driver returns exactly what the serial driver returns. */
  lemma BruteForceParIsSerial<R>(line: Table, queries: Table, from: (IndexRecord, Table) --> R)
    requires ValidInput(line, queries)
    requires |queries| > 0 ==> forall rec: IndexRecord :: rec.index < |line| ==> from.requires(rec, line)
    ensures BruteForcePar(line, queries, from) == BruteForce(line, queries, from)
  {
  }

  /** The `From` conversion to `SinglePointDistance` at the dimension the scan works in. */
  function PointFrom(rec: IndexRecord, line: Table): (p: PointRecord)
    requires rec.index < |line| && Dim <= |line[rec.index]|
    ensures |p.point| == Dim && p.distance == rec.distance
    ensures forall col :: 0 <= col < Dim ==> p.point[col] == line[rec.index][col]
  {
    LocationOf(rec, line, Dim)
  }

  /**
   * A location match is a reference point, reported with its own squared distance to the
   * query, and no reference row is strictly closer.
   */
  lemma LocationMatchIsNearestPoint(line: Table, query: seq<Float>)
    requires |line| > 0 && MinWidth(line, Dim) && Dim <= |query|
    ensures var p := PointFrom(MatchRow(line, query), line);
      var q := [query[0], query[1]];
      (exists k :: 0 <= k < |line| && p.point == line[k][..Dim]) &&
      p.distance == SquaredDistance(q, p.point) &&
      forall j :: 0 <= j < |line| ==> NotWorse(p.distance, SquaredDistance(q, line[j]))
  {
  }

  /*
   * The public entry points
   */

  /** `brute_force_index` */
  method BruteForceIndex(line: Table, queries: Table, cols: nat) returns (r: IndexAndDistance)
    requires IsTable(queries, cols) && ValidInput(line, queries)
    ensures IndexScattered(r, BruteForce(line, queries, IndexFrom), |queries|)
  {
    var records := BruteForce(line, queries, IndexFrom);
    r := IndexAndDistanceFromShapeIter(records, (|queries|, cols));
  }

  /** `brute_force_index_par` */
  method BruteForceIndexPar(line: Table, queries: Table, cols: nat) returns (r: IndexAndDistance)
    requires IsTable(queries, cols) && ValidInput(line, queries)
    ensures IndexScattered(r, BruteForce(line, queries, IndexFrom), |queries|)
  {
    var records := BruteForcePar(line, queries, IndexFrom);
    BruteForceParIsSerial(line, queries, IndexFrom);
    r := IndexAndDistanceFromShapeIter(records, (|queries|, cols));
  }

  /** `brute_force_location` */
  method BruteForceLocation(line: Table, queries: Table, cols: nat) returns (r: LocationAndDistance)
    requires IsTable(queries, cols) && ValidInput(line, queries)
    ensures LocationScattered(r, BruteForce(line, queries, PointFrom), |queries|, cols, Dim)
  {
    var records := BruteForce(line, queries, PointFrom);
    r := LocationAndDistanceFromShapeIter(records, (|queries|, cols), Dim);
  }

  /** `brute_force_location_par` */
  method BruteForceLocationPar(line: Table, queries: Table, cols: nat) returns (r: LocationAndDistance)
    requires IsTable(queries, cols) && ValidInput(line, queries)
    ensures LocationScattered(r, BruteForce(line, queries, PointFrom), |queries|, cols, Dim)
  {
    var records := BruteForcePar(line, queries, PointFrom);
    BruteForceParIsSerial(line, queries, PointFrom);
    r := LocationAndDistanceFromShapeIter(records, (|queries|, cols), Dim);
  }

  /*
   * Worked scenarios
   */

  /** The squared distances from (1.1, 0.1) to the reference rows (0,0), (1,0), (2,1), (3,2). */
  lemma ExampleDistances()
    ensures SquaredDistance([Fin(1.1), Fin(0.1)], [Fin(0.0), Fin(0.0)]) == Fin(1.22)
    ensures SquaredDistance([Fin(1.1), Fin(0.1)], [Fin(1.0), Fin(0.0)]) == Fin(0.02)
    ensures SquaredDistance([Fin(1.1), Fin(0.1)], [Fin(2.0), Fin(1.0)]) == Fin(1.62)
    ensures SquaredDistance([Fin(1.1), Fin(0.1)], [Fin(3.0), Fin(2.0)]) == Fin(7.22)
  {
  }

  /** Reference rows (0,0), (1,0), (2,1), (3,2) and query (1.1, 0.1): row 1, location (1,0), distance 0.02. */
  lemma NearestNeighborSingle()
    ensures var line := [[Fin(0.0), Fin(0.0)], [Fin(1.0), Fin(0.0)], [Fin(2.0), Fin(1.0)], [Fin(3.0), Fin(2.0)]];
      var m := MinDistanceToPoint(line, [Fin(1.1), Fin(0.1)]);
      m == IndexRecord(1, Fin(0.02)) && PointFrom(m, line).point == [Fin(1.0), Fin(0.0)]
  {
    var line := [[Fin(0.0), Fin(0.0)], [Fin(1.0), Fin(0.0)], [Fin(2.0), Fin(1.0)], [Fin(3.0), Fin(2.0)]];
    var m := MinDistanceToPoint(line, [Fin(1.1), Fin(0.1)]);
    ExampleDistances();
    assert m.index == 1;
    assert PointFrom(m, line).point == line[1][..Dim];
  }

  /** Reference rows (0,0) and (2,0) are both at distance 1 from (1,0): the earlier row wins. */
  lemma TieGoesToEarlierRow()
    ensures MinDistanceToPoint([[Fin(0.0), Fin(0.0)], [Fin(2.0), Fin(0.0)]], [Fin(1.0), Fin(0.0)])
      == IndexRecord(0, Fin(1.0))
  {
  }

  /** A reference row with a NaN coordinate loses to a later finite row. */
  lemma NaNRowNeverWins()
    ensures MinDistanceToPoint([[NaN, Fin(0.0)], [Fin(5.0), Fin(0.0)]], [Fin(0.0), Fin(0.0)])
      == IndexRecord(1, Fin(25.0))
  {
  }
}
