/** The three file layouts, as sequences of 32-bit little-endian words: a float is one word, an unsigned
    long two, the 8-byte tag two. Floats are carried as their bit patterns. */
module Files {
  import opened Sequences

  const WORD: nat := 0x1_0000_0000
  const LONG: nat := 0x1_0000_0000_0000_0000

  type Word = w: int | 0 <= w < 0x1_0000_0000
  type Byte = b: int | 0 <= b < 256
  type FloatPoint = seq<Word>

  const TRAINING: seq<Byte> := [84, 82, 65, 73, 78, 73, 78, 71]
  const QUERY: seq<Byte> := [81, 85, 69, 82, 89]
  const RESULT: seq<Byte> := [82, 69, 83, 85, 76, 84]

  /** An unsigned long stored through an unsigned long pointer, or by struct.pack("=q"). */
  function Long(v: nat): seq<Word>
    requires v < LONG
  {
    [v % WORD, v / WORD]
  }

  /** ul_ptr[i]. */
  function LongAt(f: seq<Word>, i: nat): (v: nat)
    requires 2 * i + 1 < |f|
    ensures v < LONG
  {
    f[2 * i] + WORD * f[2 * i + 1]
  }

  function Word4(b: seq<Byte>): Word
    requires |b| == 4
  {
    (b[0] as int) + 256 * ((b[1] as int) + 256 * ((b[2] as int) + 256 * (b[3] as int)))
  }

  function Bytes4(w: Word): seq<Byte> {
    [w % 256, w / 256 % 256, w / 256 / 256 % 256, w / 256 / 256 / 256]
  }

  /** Eight bytes as two words, and back. */
  function Pack(b: seq<Byte>): seq<Word>
    requires |b| == 8
  {
    [Word4(b[..4]), Word4(b[4..])]
  }

  function Unpack(f: seq<Word>): seq<Byte>
    requires |f| >= 2
  {
    Bytes4(f[0]) + Bytes4(f[1])
  }

  /** strndup: the bytes before the first NUL. */
  function CString(b: seq<Byte>): seq<Byte> {
    if b == [] || b[0] == 0 then [] else [b[0]] + CString(b[1..])
  }

  lemma Bytes4Word4(b: seq<Byte>)
    requires |b| == 4
    ensures Bytes4(Word4(b)) == b
  {
    var b2: int := (b[2] as int) + 256 * (b[3] as int);
    var b1: int := (b[1] as int) + 256 * b2;
    LowByte(b[2], b[3]);
    LowByte(b[1], b2);
    LowByte(b[0], b1);
  }

  lemma LowByte(b: Byte, x: nat)
    ensures ((b as int) + 256 * x) % 256 == b && ((b as int) + 256 * x) / 256 == x
  {
  }

  lemma UnpackPack(b: seq<Byte>, rest: seq<Word>)
    requires |b| == 8
    ensures Unpack(Pack(b) + rest) == b
  {
    Bytes4Word4(b[..4]);
    Bytes4Word4(b[4..]);
    assert b == b[..4] + b[4..];
  }

  lemma LongAtLong(f: seq<Word>, i: nat, v: nat)
    requires v < LONG && 2 * i + 2 <= |f| && f[2 * i] == Long(v)[0] && f[2 * i + 1] == Long(v)[1]
    ensures LongAt(f, i) == v
  {
  }

  // ---- Points ----

  ghost predicate Even(points: seq<FloatPoint>, dims: nat) {
    forall i :: 0 <= i < |points| ==> |points[i]| == dims
  }

  function Flatten(points: seq<FloatPoint>): seq<Word> {
    if points == [] then [] else points[0] + Flatten(points[1..])
  }

  /** n points of dims coordinates from float index idx on. */
  function PointsAt(f: seq<Word>, idx: nat, n: nat, dims: nat): seq<FloatPoint>
    requires idx + n * dims <= |f|
    decreases n
  {
    if n == 0 then []
    else
      FirstPoint(n, dims);
      [f[idx..idx + dims]] + PointsAt(f, idx + dims, n - 1, dims)
  }

  lemma FirstPoint(n: nat, dims: nat)
    requires n > 0
    ensures n * dims == dims + (n - 1) * dims && dims <= n * dims
  {
  }

  lemma {:induction false} FlattenSize(points: seq<FloatPoint>, dims: nat)
    requires Even(points, dims)
    ensures |Flatten(points)| == |points| * dims
  {
    if points != [] {
      FlattenSize(points[1..], dims);
      FirstPoint(|points|, dims);
    }
  }

  lemma {:induction false} FlattenConcat(a: seq<FloatPoint>, b: seq<FloatPoint>)
    ensures Flatten(a + b) == Flatten(a) + Flatten(b)
  {
    if a == [] {
      assert a + b == b;
    } else {
      FlattenConcat(a[1..], b);
      Tail(a, b);
      Associative(a[0], Flatten(a[1..]), Flatten(b));
    }
  }

  /** Reading back what was written. */
  lemma {:induction false} PointsAtFlatten(pre: seq<Word>, points: seq<FloatPoint>, post: seq<Word>, dims: nat)
    requires Even(points, dims)
    ensures |pre| + |points| * dims <= |pre + Flatten(points) + post|
    ensures PointsAt(pre + Flatten(points) + post, |pre|, |points|, dims) == points
    decreases |points|
  {
    FlattenSize(points, dims);
    var f := pre + Flatten(points) + post;
    if points != [] {
      var p := points[0];
      PointsAtFlatten(pre + p, points[1..], post, dims);
      assert f == pre + p + Flatten(points[1..]) + post;
      assert f[|pre|..|pre| + dims] == p;
      FirstPoint(|points|, dims);
      assert points == [p] + points[1..];
    }
  }

  // ---- TRAINING and QUERY ----

  datatype TrainInfo = TrainInfo(fileType: seq<Byte>, id: nat, numPts: nat, numDimensions: nat, points: seq<FloatPoint>)

  datatype QueryInfo =
    QueryInfo(fileType: seq<Byte>, id: nat, numQueries: nat, numDimensions: nat, k: nat, points: seq<FloatPoint>)

  function TrainHeader(id: nat, rows: nat, cols: nat): seq<Word>
    requires id < LONG && rows < LONG && cols < LONG
  {
    Pack(TRAINING) + Long(id) + Long(rows) + Long(cols)
  }

  function QueryHeader(id: nat, count: nat, cols: nat, k: nat): seq<Word>
    requires id < LONG && count < LONG && cols < LONG && k < LONG
  {
    Pack(QUERY + [0, 0] + [0]) + Long(id) + Long(count) + Long(cols) + Long(k)
  }

  /** new/training_data.py: the header, then the coordinates row by row. */
  method WriteTraining(id: nat, rows: nat, cols: nat, coords: seq<FloatPoint>) returns (file: seq<Word>)
    requires id < LONG && rows < LONG && cols < LONG && |coords| == rows && Even(coords, cols)
    ensures file == TrainHeader(id, rows, cols) + Flatten(coords)
  {
    file := Pack(TRAINING);
    file := file + Long(id);
    file := file + Long(rows);
    file := file + Long(cols);
    file := WriteRows(file, rows, cols, coords);
  }

  /** new/query_file.py: the tag is padded to eight bytes by a short and a byte. */
  method WriteQuery(id: nat, count: nat, cols: nat, k: nat, coords: seq<FloatPoint>) returns (file: seq<Word>)
    requires id < LONG && count < LONG && cols < LONG && k < LONG && |coords| == count && Even(coords, cols)
    ensures file == QueryHeader(id, count, cols, k) + Flatten(coords)
  {
    file := Pack(QUERY + [0, 0] + [0]);
    file := file + Long(id);
    file := file + Long(count);
    file := file + Long(cols);
    file := file + Long(k);
    file := WriteRows(file, count, cols, coords);
  }

  method WriteRows(header: seq<Word>, rows: nat, cols: nat, coords: seq<FloatPoint>) returns (file: seq<Word>)
    requires |coords| == rows && Even(coords, cols)
    ensures file == header + Flatten(coords)
  {
    file := header;
    for i := 0 to rows
      invariant file == header + Flatten(coords[..i])
    {
      var buff: seq<Word> := [];
      for j := 0 to cols
        invariant buff == coords[i][..j]
      {
        buff := buff + [coords[i][j]];
      }
      FlattenConcat(coords[..i], [coords[i]]);
      assert coords[..i + 1] == coords[..i] + [coords[i]];
      assert Flatten([coords[i]]) == coords[i];
      file := file + buff;
    }
    assert coords[..rows] == coords;
  }

  /** The point loops of the parsers. */
  method ReadPoints(f: seq<Word>, start: nat, n: nat, dims: nat) returns (points: seq<FloatPoint>)
    requires start + n * dims <= |f|
    ensures points == PointsAt(f, start, n, dims)
  {
    points := [];
    var idx: nat := start;
    for i := 0 to n
      invariant idx + (n - i) * dims <= |f|
      invariant points + PointsAt(f, idx, n - i, dims) == PointsAt(f, start, n, dims)
    {
      FirstPoint(n - i, dims);
      assert n - (i + 1) == n - i - 1;
      var p := ReadPoint(f, idx, dims);
      idx := idx + dims;
      points := points + [p];
    }
  }

  method ReadPoint(f: seq<Word>, start: nat, dims: nat) returns (p: FloatPoint)
    requires start + dims <= |f|
    ensures p == f[start..start + dims]
  {
    p := [];
    for j := 0 to dims
      invariant p == f[start..start + j]
    {
      p := p + [f[start + j]];
    }
  }

  /** train_info_ctor. The file must be as long as its header says; the parser does not check. */
  method TrainInfoCtor(f: seq<Word>) returns (t: TrainInfo)
    requires |f| >= 8 && 8 + LongAt(f, 2) * LongAt(f, 3) <= |f|
    ensures t.fileType == CString(Unpack(f)) && t.id == LongAt(f, 1)
    ensures t.numPts == LongAt(f, 2) && t.numDimensions == LongAt(f, 3)
    ensures t.points == PointsAt(f, 8, t.numPts, t.numDimensions)
  {
    var idx := 1;
    var id := LongAt(f, idx); idx := idx + 1;
    var numPts := LongAt(f, idx); idx := idx + 1;
    var dims := LongAt(f, idx); idx := idx + 1;
    idx := idx * 2;
    var points := ReadPoints(f, idx, numPts, dims);
    t := TrainInfo(CString(Unpack(f)), id, numPts, dims, points);
  }

  /** query_info_ctor. */
  method QueryInfoCtor(f: seq<Word>) returns (q: QueryInfo)
    requires |f| >= 10 && 10 + LongAt(f, 2) * LongAt(f, 3) <= |f|
    ensures q.fileType == CString(Unpack(f)) && q.id == LongAt(f, 1)
    ensures q.numQueries == LongAt(f, 2) && q.numDimensions == LongAt(f, 3) && q.k == LongAt(f, 4)
    ensures q.points == PointsAt(f, 10, q.numQueries, q.numDimensions)
  {
    var idx := 1;
    var id := LongAt(f, idx); idx := idx + 1;
    var numQueries := LongAt(f, idx); idx := idx + 1;
    var dims := LongAt(f, idx); idx := idx + 1;
    var k := LongAt(f, idx); idx := idx + 1;
    idx := idx * 2;
    var points := ReadPoints(f, idx, numQueries, dims);
    q := QueryInfo(CString(Unpack(f)), id, numQueries, dims, k, points);
  }

  /** check_info. */
  predicate CheckInfo(t: TrainInfo, q: QueryInfo) {
    t.fileType == TRAINING && q.fileType == QUERY && t.numDimensions == q.numDimensions
  }

  lemma TrainHeaderFields(id: nat, rows: nat, cols: nat, rest: seq<Word>)
    requires id < LONG && rows < LONG && cols < LONG
    ensures var f := TrainHeader(id, rows, cols) + rest;
      |f| >= 8 && CString(Unpack(f)) == TRAINING && LongAt(f, 1) == id && LongAt(f, 2) == rows && LongAt(f, 3) == cols
  {
    var f := TrainHeader(id, rows, cols) + rest;
    var after := Long(id) + Long(rows) + Long(cols) + rest;
    assert f == Pack(TRAINING) + after;
    UnpackPack(TRAINING, after);
    CStringWhole(TRAINING, []);
    assert TRAINING + [] == TRAINING;
    LongAtLong(f, 1, id);
    LongAtLong(f, 2, rows);
    LongAtLong(f, 3, cols);
  }

  lemma {:induction false} CStringWhole(b: seq<Byte>, zeros: seq<Byte>)
    requires forall i :: 0 <= i < |b| ==> b[i] != 0
    requires zeros == [] || zeros[0] == 0
    ensures CString(b + zeros) == b
  {
    if b == [] {
      assert b + zeros == zeros;
    } else {
      CStringWhole(b[1..], zeros);
      assert (b + zeros)[1..] == b[1..] + zeros;
    }
  }

  lemma QueryHeaderFields(id: nat, count: nat, cols: nat, k: nat, rest: seq<Word>)
    requires id < LONG && count < LONG && cols < LONG && k < LONG
    ensures var f := QueryHeader(id, count, cols, k) + rest;
      && |f| >= 10 && CString(Unpack(f)) == QUERY && LongAt(f, 1) == id && LongAt(f, 2) == count
      && LongAt(f, 3) == cols && LongAt(f, 4) == k
  {
    var f := QueryHeader(id, count, cols, k) + rest;
    var after := Long(id) + Long(count) + Long(cols) + Long(k) + rest;
    var tag := QUERY + [0, 0] + [0];
    assert f == Pack(tag) + after;
    UnpackPack(tag, after);
    assert tag == QUERY + [0, 0, 0];
    CStringWhole(QUERY, [0, 0, 0]);
    LongAtLong(f, 1, id);
    LongAtLong(f, 2, count);
    LongAtLong(f, 3, cols);
    LongAtLong(f, 4, k);
  }

  /** Writing both inputs and parsing them gives back every field and coordinate, and check_info accepts
      the pair exactly when the dimensions agree. */
  method InputRoundTrip(id: nat, rows: nat, cols: nat, coords: seq<FloatPoint>,
                        qid: nat, count: nat, qcols: nat, k: nat, qcoords: seq<FloatPoint>)
    returns (t: TrainInfo, q: QueryInfo, ok: bool)
    requires id < LONG && rows < LONG && cols < LONG && |coords| == rows && Even(coords, cols)
    requires qid < LONG && count < LONG && qcols < LONG && k < LONG && |qcoords| == count && Even(qcoords, qcols)
    ensures t == TrainInfo(TRAINING, id, rows, cols, coords)
    ensures q == QueryInfo(QUERY, qid, count, qcols, k, qcoords)
    ensures ok <==> cols == qcols
  {
    var f := WriteTraining(id, rows, cols, coords);
    TrainHeaderFields(id, rows, cols, Flatten(coords));
    PointsAtFlatten(TrainHeader(id, rows, cols), coords, [], cols);
    assert TrainHeader(id, rows, cols) + Flatten(coords) + [] == f;
    t := TrainInfoCtor(f);
    var g := WriteQuery(qid, count, qcols, k, qcoords);
    QueryHeaderFields(qid, count, qcols, k, Flatten(qcoords));
    PointsAtFlatten(QueryHeader(qid, count, qcols, k), qcoords, [], qcols);
    assert QueryHeader(qid, count, qcols, k) + Flatten(qcoords) + [] == g;
    q := QueryInfoCtor(g);
    ok := CheckInfo(t, q);
  }
}
