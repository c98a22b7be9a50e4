/** The files word by word: where every value stands, and which words are accepted as tags. */
module FileWords {
  import opened Sequences
  import opened Files
  import opened ResultFile

  // ---- Where a coordinate stands ----

  lemma AfterHeader<T>(h: seq<T>, t: seq<T>, i: nat)
    requires i < |t|
    ensures |h| + i < |h + t| && (h + t)[|h| + i] == t[i]
  {
  }

  lemma OneRowLess(i: nat, k: nat)
    requires i > 0
    ensures i * k == k + (i - 1) * k
  {
  }

  /** The place of element j of row i where rows of k elements follow each other. */
  function PlaceOf(i: nat, j: nat, k: nat): nat {
    if i == 0 then j else k + PlaceOf(i - 1, j, k)
  }

  lemma {:induction false} PlaceIs(i: nat, j: nat, k: nat)
    ensures PlaceOf(i, j, k) == i * k + j
  {
    if i > 0 {
      PlaceIs(i - 1, j, k);
      OneRowLess(i, k);
    }
  }

  lemma {:induction false} FlattenAt(points: seq<FloatPoint>, dims: nat, i: nat, d: nat)
    requires Even(points, dims) && i < |points| && d < dims
    ensures var at := PlaceOf(i, d, dims);
      at < |Flatten(points)| && Flatten(points)[at] == points[i][d]
    decreases |points|
  {
    if i > 0 {
      FlattenAt(points[1..], dims, i - 1, d);
      AfterHeader(points[0], Flatten(points[1..]), PlaceOf(i - 1, d, dims));
      assert points[1..][i - 1] == points[i];
    }
  }

  lemma {:induction false} FileOrderAt(results: seq<Row>, k: nat, dims: nat, i: nat, j: nat)
    requires Rectangular(results, k, dims) && i < |results| && j < k
    ensures var at := PlaceOf(i, j, k);
      at < |FileOrder(results)| && FileOrder(results)[at] == results[i][k - 1 - j]
    decreases |results|
  {
    EvenReverse(results[0], dims);
    ReverseFacts(results[0]);
    if i > 0 {
      FileOrderAt(results[1..], k, dims, i - 1, j);
      AfterHeader(Reverse(results[0]), FileOrder(results[1..]), PlaceOf(i - 1, j, k));
      assert results[1..][i - 1] == results[i];
    }
  }

  lemma {:induction false} FileOrderEven(results: seq<Row>, k: nat, dims: nat)
    requires Rectangular(results, k, dims)
    ensures Even(FileOrder(results), dims)
  {
    if results != [] {
      EvenReverse(results[0], dims);
      FileOrderEven(results[1..], k, dims);
    }
  }

  // ---- The written files ----

  /** A TRAINING file: "TRAINING" in two little-endian words, the three numbers with their low word
      first, and coordinate d of point i at float index 8 + i * cols + d. */
  lemma TrainingWords(id: nat, rows: nat, cols: nat, coords: seq<FloatPoint>, i: nat, d: nat)
    requires id < LONG && rows < LONG && cols < LONG && |coords| == rows && Even(coords, cols) && i < rows && d < cols
    ensures var f := TrainHeader(id, rows, cols) + Flatten(coords);
      && 8 + (i * cols + d) < |f|
      && f[0] == 0x4941_5254 && f[1] == 0x474E_494E
      && f[2] == id % 0x1_0000_0000 && f[3] == id / 0x1_0000_0000
      && f[4] == rows % 0x1_0000_0000 && f[5] == rows / 0x1_0000_0000
      && f[6] == cols % 0x1_0000_0000 && f[7] == cols / 0x1_0000_0000
      && f[8 + (i * cols + d)] == coords[i][d]
  {
    PlaceIs(i, d, cols);
    FlattenAt(coords, cols, i, d);
  }

  /** A QUERY file: "QUERY" and three zero bytes, four numbers, and the coordinates from float index 10. */
  lemma QueryWords(id: nat, count: nat, cols: nat, k: nat, coords: seq<FloatPoint>, i: nat, d: nat)
    requires id < LONG && count < LONG && cols < LONG && k < LONG && |coords| == count && Even(coords, cols)
    requires i < count && d < cols
    ensures var f := QueryHeader(id, count, cols, k) + Flatten(coords);
      && 10 + (i * cols + d) < |f|
      && f[0] == 0x5245_5551 && f[1] == 0x59
      && f[2] == id % 0x1_0000_0000 && f[3] == id / 0x1_0000_0000
      && f[4] == count % 0x1_0000_0000 && f[5] == count / 0x1_0000_0000
      && f[6] == cols % 0x1_0000_0000 && f[7] == cols / 0x1_0000_0000
      && f[8] == k % 0x1_0000_0000 && f[9] == k / 0x1_0000_0000
      && f[10 + (i * cols + d)] == coords[i][d]
  {
    PlaceIs(i, d, cols);
    FlattenAt(coords, cols, i, d);
  }

  /** The header of a RESULT file: "RESULT" and two zero bytes, and six numbers. */
  lemma ResultHeaderWords(ids: Ids, numQueries: nat, dims: nat, k: nat, rest: seq<Word>)
    requires ids.Fits() && numQueries < LONG && dims < LONG && k < LONG
    ensures var f := ResultHeader(ids, numQueries, dims, k) + rest;
      && f[0] == 0x5553_4552 && f[1] == 0x544C
      && f[2] == ids.train % 0x1_0000_0000 && f[3] == ids.train / 0x1_0000_0000
      && f[4] == ids.query % 0x1_0000_0000 && f[5] == ids.query / 0x1_0000_0000
      && f[6] == ids.result % 0x1_0000_0000 && f[7] == ids.result / 0x1_0000_0000
      && f[8] == numQueries % 0x1_0000_0000 && f[9] == numQueries / 0x1_0000_0000
      && f[10] == dims % 0x1_0000_0000 && f[11] == dims / 0x1_0000_0000
      && f[12] == k % 0x1_0000_0000 && f[13] == k / 0x1_0000_0000
  {
  }

  /** Its coordinates: those of neighbour j of query i, counted from the nearest, follow each other from
      float index 14 + (i * k + j) * dims. */
  lemma ResultWords(ids: Ids, dims: nat, k: nat, results: seq<Row>, i: nat, j: nat, d: nat, n: nat, at: nat)
    requires ids.Fits() && |results| < LONG && dims < LONG && k < LONG && Rectangular(results, k, dims)
    requires i < |results| && j < k && d < dims && n == i * k + j && at == 14 + n * dims + d
    ensures var f := ResultHeader(ids, |results|, dims, k) + Flatten(FileOrder(results));
      at < |f| && f[at] == results[i][k - 1 - j][d]
  {
    PlaceIs(i, j, k);
    PlaceIs(n, d, dims);
    FileOrderAt(results, k, dims, i, j);
    FileOrderEven(results, k, dims);
    FlattenAt(FileOrder(results), dims, n, d);
    AfterHeader(ResultHeader(ids, |results|, dims, k), Flatten(FileOrder(results)), at - 14);
  }

  // ---- Tags ----

  lemma Word4Bytes4(w: Word)
    ensures Word4(Bytes4(w)) == w
  {
    var w1 := w / 256;
    var w2 := w1 / 256;
    assert w == w % 256 + 256 * w1;
    assert w1 == w1 % 256 + 256 * w2;
    assert w2 == w2 % 256 + 256 * (w2 / 256);
  }

  lemma {:induction false} CStringPrefix(b: seq<Byte>)
    ensures |CString(b)| <= |b| && b[..|CString(b)|] == CString(b)
    ensures |CString(b)| < |b| ==> b[|CString(b)|] == 0
  {
    if b != [] && b[0] != 0 {
      CStringPrefix(b[1..]);
      var n := |CString(b[1..])|;
      assert b[..n + 1] == [b[0]] + b[1..][..n];
    }
  }

  lemma {:induction false} CStringOf(b: seq<Byte>, tag: seq<Byte>)
    requires forall i :: 0 <= i < |tag| ==> tag[i] != 0
    ensures CString(b) == tag <==> |tag| <= |b| && b[..|tag|] == tag && (|tag| < |b| ==> b[|tag|] == 0)
  {
    CStringPrefix(b);
    if |tag| <= |b| && b[..|tag|] == tag && (|tag| < |b| ==> b[|tag|] == 0) {
      assert b == b[..|tag|] + b[|tag|..];
      CStringWhole(tag, b[|tag|..]);
    }
  }

  /** A file counts as a TRAINING file exactly if its first two words are those eight letters. */
  lemma TrainingTag(f: seq<Word>)
    requires |f| >= 2
    ensures CString(Unpack(f)) == TRAINING <==> f[0] == 0x4941_5254 && f[1] == 0x474E_494E
  {
    CStringOf(Unpack(f), TRAINING);
    Word4Bytes4(f[0]);
    Word4Bytes4(f[1]);
    assert Unpack(f)[..8] == Unpack(f);
    assert Bytes4(0x4941_5254) == [84, 82, 65, 73] && Bytes4(0x474E_494E) == [78, 73, 78, 71];
    if Unpack(f) == TRAINING {
      assert Bytes4(f[0]) == Unpack(f)[..4] && Bytes4(f[1]) == Unpack(f)[4..];
    }
  }

  /** A file counts as a QUERY file exactly if it begins with these five letters and a zero byte. */
  lemma QueryTag(f: seq<Word>)
    requires |f| >= 2
    ensures CString(Unpack(f)) == QUERY <==> f[0] == 0x5245_5551 && f[1] % 0x1_0000 == 0x59
  {
    var b := Unpack(f);
    CStringOf(b, QUERY);
    Word4Bytes4(f[0]);
    assert Bytes4(0x5245_5551) == [81, 85, 69, 82];
    assert b == [b[0], b[1], b[2], b[3], b[4], b[5], b[6], b[7]];
    assert Bytes4(f[0]) == [b[0], b[1], b[2], b[3]];
    SecondByte(f[1]);
    assert b[..5] == QUERY <==> Bytes4(f[0]) == [81, 85, 69, 82] && b[4] == 89;
  }

  lemma SecondByte(w: Word)
    ensures w % 0x1_0000 == 0x59 <==> w % 256 == 89 && w / 256 % 256 == 0
  {
    var q := w / 256;
    var r := q / 256;
    var low := w % 256 + 256 * (q % 256);
    assert w == low + 0x1_0000 * r && 0 <= low < 0x1_0000;
    assert w % 0x1_0000 == low;
  }

  lemma SameLong(f: seq<Word>, g: seq<Word>, i: nat)
    requires 2 * i + 1 < |f| && 2 * i + 1 < |g|
    ensures LongAt(f, i) == LongAt(g, i) <==> f[2 * i] == g[2 * i] && f[2 * i + 1] == g[2 * i + 1]
  {
  }

  predicate LongEnough(f: seq<Word>, header: nat) {
    |f| >= header >= 8 && header + LongAt(f, 2) * LongAt(f, 3) <= |f|
  }

  /** Parsing both files and comparing them: the pair is accepted if and only if the first begins with
      TRAINING, the second with QUERY and a zero byte, and both name the same number of dimensions. */
  method CheckFiles(f: seq<Word>, g: seq<Word>) returns (ok: bool)
    requires LongEnough(f, 8) && LongEnough(g, 10)
    ensures ok <==>
      && f[0] == 0x4941_5254 && f[1] == 0x474E_494E
      && g[0] == 0x5245_5551 && g[1] % 0x1_0000 == 0x59
      && f[6] == g[6] && f[7] == g[7]
  {
    var t := TrainInfoCtor(f);
    var q := QueryInfoCtor(g);
    ok := CheckInfo(t, q);
    TrainingTag(f);
    QueryTag(g);
    SameLong(f, g, 3);
  }
}
