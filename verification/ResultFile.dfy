/** The RESULT file: results_to_file writes each query's neighbours backwards, nearest first, and
    _check_output reads them back. */
module ResultFile {
  import opened Sequences
  import opened Files

  /** results[i]: the k neighbours of query i as popped from its queue, farthest first. */
  type Row = seq<FloatPoint>

  /** All points in the order of the file. */
  function FileOrder(results: seq<Row>): seq<FloatPoint> {
    if results == [] then [] else Reverse(results[0]) + FileOrder(results[1..])
  }

  datatype Ids = Ids(train: nat, query: nat, result: nat) {
    predicate Fits() {
      train < LONG && query < LONG && result < LONG
    }
  }

  function ResultHeader(ids: Ids, numQueries: nat, dims: nat, k: nat): (h: seq<Word>)
    requires ids.Fits() && numQueries < LONG && dims < LONG && k < LONG
    ensures |h| == 14
  {
    Pack(RESULT + [0, 0]) + Long(ids.train) + Long(ids.query) + Long(ids.result)
    + Long(numQueries) + Long(dims) + Long(k)
  }

  ghost predicate Rectangular(results: seq<Row>, k: nat, dims: nat) {
    forall i :: 0 <= i < |results| ==> |results[i]| == k && Even(results[i], dims)
  }

  lemma EvenReverse(row: Row, dims: nat)
    requires Even(row, dims)
    ensures |Reverse(row)| == |row| && Even(Reverse(row), dims)
  {
    ReverseFacts(row);
  }

  lemma {:induction false} FileOrderConcat(a: seq<Row>, b: seq<Row>)
    ensures FileOrder(a + b) == FileOrder(a) + FileOrder(b)
  {
    if a == [] {
      assert a + b == b;
    } else {
      FileOrderConcat(a[1..], b);
      Tail(a, b);
      Associative(Reverse(a[0]), FileOrder(a[1..]), FileOrder(b));
    }
  }

  // ---- Writing ----

  method StoreLong(file: array<Word>, idx: nat, v: nat)
    requires v < LONG && 2 * idx + 2 <= file.Length
    modifies file
    ensures file[..2 * idx + 2] == old(file[..2 * idx]) + Long(v)
  {
    file[2 * idx] := v % WORD;
    file[2 * idx + 1] := v / WORD;
  }

  /** The innermost loop: one float after the other. stored lists the float slots assigned. */
  method StorePoint(file: array<Word>, start: nat, p: FloatPoint) returns (idx: nat, ghost stored: seq<nat>)
    requires start + |p| <= file.Length
    modifies file
    ensures idx == start + |p| && file[..idx] == old(file[..start]) + p
    ensures stored == Indices(start, |p|)
  {
    idx, stored := start, [];
    for d := 0 to |p|
      invariant idx == start + d && file[..idx] == old(file[..start]) + p[..d]
      invariant stored == Indices(start, d)
    {
      file[idx] := p[d];
      stored := stored + [idx];
      idx := idx + 1;
    }
  }

  /** The neighbours of one query, from the last popped to the first. */
  method StoreRow(file: array<Word>, start: nat, row: Row, dims: nat) returns (idx: nat, ghost stored: seq<nat>)
    requires Even(row, dims) && start + |row| * dims <= file.Length
    modifies file
    ensures idx == start + |row| * dims && file[..idx] == old(file[..start]) + Flatten(Reverse(row))
    ensures stored == Indices(start, |row| * dims)
  {
    idx, stored := start, [];
    var j := |row|;
    assert row[j..] == [];
    while j > 0
      invariant 0 <= j <= |row| && idx == start + (|row| - j) * dims
      invariant file[..idx] == old(file[..start]) + Flatten(Reverse(row[j..]))
      invariant stored == Indices(start, idx - start)
    {
      j := j - 1;
      RowBound(|row|, j, dims);
      IndicesJoin(start, idx - start, dims);
      NextFlat(row, j);
      ghost var more;
      idx, more := StorePoint(file, idx, row[j]);
      stored := stored + more;
    }
    assert row[0..] == row;
  }

  lemma NextFlat(row: Row, j: nat)
    requires j < |row|
    ensures Flatten(Reverse(row[j..])) == Flatten(Reverse(row[j + 1..])) + row[j]
  {
    assert row[j..] == [row[j]] + row[j + 1..];
    FlattenConcat(Reverse(row[j + 1..]), [row[j]]);
    assert Flatten([row[j]]) == row[j];
  }

  lemma RowBound(n: nat, j: nat, dims: nat)
    requires j < n
    ensures (n - j - 1) * dims + dims == (n - j) * dims <= n * dims
  {
    assert (n - j) * dims + j * dims == n * dims;
  }

  lemma TotalBound(q: nat, i: nat, size: nat)
    requires i < q
    ensures i * size + size == (i + 1) * size <= q * size
  {
    assert (i + 1) * size + (q - i - 1) * size == q * size;
  }

  method StoreHeader(file: array<Word>, ids: Ids, numQueries: nat, dims: nat, k: nat)
    requires file.Length >= 14 && ids.Fits() && numQueries < LONG && dims < LONG && k < LONG
    modifies file
    ensures file[..14] == ResultHeader(ids, numQueries, dims, k)
  {
    var tag: seq<Byte> := [];
    for i := 0 to 8
      invariant tag == (RESULT + [0, 0])[..i]
    {
      tag := tag + [if i < 6 then RESULT[i] else 0];
    }
    assert tag == RESULT + [0, 0];
    file[0] := Pack(tag)[0];
    file[1] := Pack(tag)[1];
    assert file[..2] == Pack(tag);
    StoreLong(file, 1, ids.train);
    StoreLong(file, 2, ids.query);
    StoreLong(file, 3, ids.result);
    StoreLong(file, 4, numQueries);
    StoreLong(file, 5, dims);
    StoreLong(file, 6, k);
  }

  /** The outer loop, from float index 14 on; size is the length of one query's part. */
  method StoreRows(file: array<Word>, results: seq<Row>, k: nat, dims: nat, size: nat)
    returns (idx: nat, ghost stored: seq<nat>)
    requires Rectangular(results, k, dims) && size == k * dims && file.Length == 14 + |results| * size
    modifies file
    ensures idx == file.Length && file[..] == old(file[..14]) + Flatten(FileOrder(results))
    ensures stored == Indices(14, file.Length - 14)
  {
    idx, stored := 14, [];
    ghost var header := file[..14];
    for i := 0 to |results|
      invariant idx == 14 + i * size <= file.Length
      invariant file[..idx] == header + Flatten(FileOrder(results[..i]))
      invariant stored == Indices(14, idx - 14)
    {
      TotalBound(|results|, i, size);
      IndicesJoin(14, idx - 14, size);
      AppendRow(results, i);
      ghost var more;
      idx, more := StoreRow(file, idx, results[i], dims);
      stored := stored + more;
    }
    assert results[..|results|] == results && file[..idx] == file[..];
  }

  /** results_to_file. The float slots assigned, in order, are 14, 15, ... up to the computed size of the
      file: every one of them, and each once. */
  method ResultsToFile(ids: Ids, dims: nat, k: nat, results: seq<Row>)
    returns (file: array<Word>, idx: nat, ghost stored: seq<nat>)
    requires ids.Fits() && |results| < LONG && dims < LONG && k < LONG && Rectangular(results, k, dims)
    ensures fresh(file) && idx == file.Length == 14 + |results| * (k * dims)
    ensures file[..] == ResultHeader(ids, |results|, dims, k) + Flatten(FileOrder(results))
    ensures stored == seq(file.Length - 14, i requires 0 <= i < file.Length - 14 => 14 + i)
  {
    file := new Word[14 + |results| * (k * dims)](_ => 0);
    StoreHeader(file, ids, |results|, dims, k);
    idx, stored := StoreRows(file, results, k, dims, k * dims);
  }

  lemma AppendRow(results: seq<Row>, i: nat)
    requires i < |results|
    ensures Flatten(FileOrder(results[..i + 1])) == Flatten(FileOrder(results[..i])) + Flatten(Reverse(results[i]))
  {
    assert results[..i + 1] == results[..i] + [results[i]];
    FileOrderConcat(results[..i], [results[i]]);
    assert FileOrder([results[i]]) == Reverse(results[i]);
    FlattenConcat(FileOrder(results[..i]), Reverse(results[i]));
  }

  // ---- Reading ----

  datatype ResultInfo =
    ResultInfo(fileType: seq<Byte>, ids: Ids, numQueries: nat, numDimensions: nat, k: nat, neighbors: seq<Row>)

  /** n rows of k points from float index idx on. */
  function RowsAt(f: seq<Word>, idx: nat, n: nat, k: nat, dims: nat): seq<Row>
    requires idx + n * (k * dims) <= |f|
    decreases n
  {
    if n == 0 then []
    else
      FirstPoint(n, k * dims);
      [PointsAt(f, idx, k, dims)] + RowsAt(f, idx + k * dims, n - 1, k, dims)
  }

  lemma NextRow(f: seq<Word>, idx: nat, n: nat, k: nat, dims: nat, rows: seq<Row>)
    requires n > 0 && idx + n * (k * dims) <= |f|
    ensures idx + k * dims + (n - 1) * (k * dims) <= |f| && idx + k * dims <= |f|
    ensures rows + RowsAt(f, idx, n, k, dims)
         == rows + [PointsAt(f, idx, k, dims)] + RowsAt(f, idx + k * dims, n - 1, k, dims)
  {
    FirstPoint(n, k * dims);
    Associative(rows, [PointsAt(f, idx, k, dims)], RowsAt(f, idx + k * dims, n - 1, k, dims));
  }

  /** The outer loop; size is the length of one query's part. */
  method ReadRows(f: seq<Word>, n: nat, k: nat, dims: nat, size: nat) returns (rows: seq<Row>)
    requires size == k * dims && 14 + n * size <= |f|
    ensures rows == RowsAt(f, 14, n, k, dims)
  {
    rows := [];
    var idx: nat := 14;
    ghost var rest: nat := n;
    for i := 0 to n
      invariant rest == n - i && idx + rest * size <= |f|
      invariant rows + RowsAt(f, idx, rest, k, dims) == RowsAt(f, 14, n, k, dims)
    {
      NextRow(f, idx, rest, k, dims, rows);
      var row := ReadPoints(f, idx, k, dims);
      idx := idx + size;
      rows := rows + [row];
      rest := rest - 1;
    }
    assert RowsAt(f, idx, rest, k, dims) == [];
  }

  /** The reading half of _check_output. */
  method ReadResult(f: seq<Word>) returns (r: ResultInfo)
    requires |f| >= 14 && 14 + LongAt(f, 4) * (LongAt(f, 6) * LongAt(f, 5)) <= |f|
    ensures r.fileType == CString(Unpack(f)) && r.ids == Ids(LongAt(f, 1), LongAt(f, 2), LongAt(f, 3))
    ensures r.numQueries == LongAt(f, 4) && r.numDimensions == LongAt(f, 5) && r.k == LongAt(f, 6)
    ensures r.neighbors == RowsAt(f, 14, r.numQueries, r.k, r.numDimensions)
  {
    var n, dims, k := LongAt(f, 4), LongAt(f, 5), LongAt(f, 6);
    var rows := ReadRows(f, n, k, dims, k * dims);
    r := ResultInfo(CString(Unpack(f)), Ids(LongAt(f, 1), LongAt(f, 2), LongAt(f, 3)), n, dims, k, rows);
  }

  lemma {:induction false} FileOrderSize(results: seq<Row>, k: nat, dims: nat)
    requires Rectangular(results, k, dims)
    ensures |Flatten(FileOrder(results))| == |results| * (k * dims)
  {
    if results != [] {
      FileOrderSize(results[1..], k, dims);
      EvenReverse(results[0], dims);
      FlattenConcat(Reverse(results[0]), FileOrder(results[1..]));
      FlattenSize(Reverse(results[0]), dims);
      FirstPoint(|results|, k * dims);
    }
  }

  function AllReversed(results: seq<Row>): seq<Row> {
    if results == [] then [] else [Reverse(results[0])] + AllReversed(results[1..])
  }

  lemma {:induction false} AllReversedAt(results: seq<Row>)
    ensures |AllReversed(results)| == |results|
    ensures forall i :: 0 <= i < |results| ==> AllReversed(results)[i] == Reverse(results[i])
  {
    if results != [] {
      AllReversedAt(results[1..]);
    }
  }

  lemma FirstRowAt(f: seq<Word>, idx: nat, n: nat, k: nat, dims: nat, row: Row, more: seq<Row>)
    requires n > 0 && idx + k * dims + (n - 1) * (k * dims) <= |f|
    requires PointsAt(f, idx, k, dims) == row && RowsAt(f, idx + k * dims, n - 1, k, dims) == more
    ensures idx + n * (k * dims) <= |f| && RowsAt(f, idx, n, k, dims) == [row] + more
  {
    FirstPoint(n, k * dims);
  }

  lemma {:induction false} RowsAtFile(pre: seq<Word>, results: seq<Row>, k: nat, dims: nat)
    requires Rectangular(results, k, dims)
    ensures |pre| + |results| * (k * dims) <= |pre + Flatten(FileOrder(results))|
    ensures RowsAt(pre + Flatten(FileOrder(results)), |pre|, |results|, k, dims) == AllReversed(results)
    decreases |results|
  {
    FileOrderSize(results, k, dims);
    if results != [] {
      var row, rest := Reverse(results[0]), Flatten(FileOrder(results[1..]));
      EvenReverse(results[0], dims);
      FlattenConcat(row, FileOrder(results[1..]));
      FlattenSize(row, dims);
      PointsAtFlatten(pre, row, rest, dims);
      RowsAtFile(pre + Flatten(row), results[1..], k, dims);
      Associative(pre, Flatten(row), rest);
      FirstRowAt(pre + Flatten(row) + rest, |pre|, |results|, k, dims, row, AllReversed(results[1..]));
    }
  }

  lemma ResultHeaderFields(ids: Ids, numQueries: nat, dims: nat, k: nat, rest: seq<Word>)
    requires ids.Fits() && numQueries < LONG && dims < LONG && k < LONG
    ensures var f := ResultHeader(ids, numQueries, dims, k) + rest;
      && |f| >= 14 && CString(Unpack(f)) == RESULT
      && LongAt(f, 1) == ids.train && LongAt(f, 2) == ids.query && LongAt(f, 3) == ids.result
      && LongAt(f, 4) == numQueries && LongAt(f, 5) == dims && LongAt(f, 6) == k
  {
    var f := ResultHeader(ids, numQueries, dims, k) + rest;
    var after := Long(ids.train) + Long(ids.query) + Long(ids.result) + Long(numQueries) + Long(dims) + Long(k) + rest;
    assert f == Pack(RESULT + [0, 0]) + after;
    UnpackPack(RESULT + [0, 0], after);
    CStringWhole(RESULT, [0, 0]);
    LongAtLong(f, 1, ids.train);
    LongAtLong(f, 2, ids.query);
    LongAtLong(f, 3, ids.result);
    LongAtLong(f, 4, numQueries);
    LongAtLong(f, 5, dims);
    LongAtLong(f, 6, k);
  }

  /** What _check_output asserts of the file results_to_file has written: every header field is there,
      and neighbour j of query i is results[i][k - 1 - j]. */
  ghost predicate Reads(r: ResultInfo, ids: Ids, dims: nat, k: nat, results: seq<Row>) {
    && r.fileType == RESULT && r.ids == ids
    && r.numQueries == |results| && r.numDimensions == dims && r.k == k
    && |r.neighbors| == |results|
    && forall i :: 0 <= i < |results| ==> RowReads(r.neighbors[i], results[i], k)
  }

  predicate RowReads(read: Row, row: Row, k: nat) {
    |read| == |row| == k && forall j :: 0 <= j < k ==> read[j] == row[k - 1 - j]
  }

  lemma WrittenReads(ids: Ids, dims: nat, k: nat, results: seq<Row>, r: ResultInfo)
    requires ids.Fits() && |results| < LONG && dims < LONG && k < LONG && Rectangular(results, k, dims)
    requires r == ResultInfo(RESULT, ids, |results|, dims, k, AllReversed(results))
    ensures Reads(r, ids, dims, k, results)
  {
    AllReversedAt(results);
    forall i | 0 <= i < |results| ensures RowReads(r.neighbors[i], results[i], k) {
      assert |results[i]| == k;
      ReverseFacts(results[i]);
    }
  }

  /** RESULT round trip. */
  method ResultRoundTrip(ids: Ids, dims: nat, k: nat, results: seq<Row>) returns (r: ResultInfo)
    requires ids.Fits() && |results| < LONG && dims < LONG && k < LONG && Rectangular(results, k, dims)
    ensures Reads(r, ids, dims, k, results)
  {
    var file, idx, _ := ResultsToFile(ids, dims, k, results);
    ResultHeaderFields(ids, |results|, dims, k, Flatten(FileOrder(results)));
    RowsAtFile(ResultHeader(ids, |results|, dims, k), results, k, dims);
    r := ReadResult(file[..]);
    WrittenReads(ids, dims, k, results, r);
  }
}
