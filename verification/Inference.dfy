/** Queueing, computing and dequeueing whole vectors, and mapping matrices, on tile values. */
module Inference {
  import opened Words
  import opened Tile

  function Min(a: int, b: int): int {
    if a < b then a else b
  }

  /** The number of words that carry n values. */
  function WordCount(n: nat): nat {
    (n + 4 - 1) / 4
  }

  /** The values of v that travel in word k. */
  function Chunk(v: seq<Int8>, k: nat): (c: seq<Int8>)
    requires 4 * k <= |v|
    ensures |c| <= 4
  {
    v[4 * k..Min(4 * k + 4, |v|)]
  }

  function PackedWord(v: seq<Int8>): (w: Word)
    requires |v| <= 4
  {
    PackFits(v);
    Pack(v)
  }

  function WordsOf(v: seq<Int8>): seq<Word> {
    seq(WordCount(|v|), k requires 0 <= k < WordCount(|v|) => PackedWord(Chunk(v, k)))
  }

  function QueueAll(t: TileState, words: seq<Word>): (u: TileState)
    requires Valid(t)
    ensures Valid(u) && u == t.(input := u.input, inCounter := t.inCounter + 4 * |words|)
  {
    if words == [] then t
    else QueueWord(QueueAll(t, words[..|words| - 1]), words[|words| - 1])
  }

  /** The words n dequeues return. */
  function DequeueAll(t: TileState, n: nat): (r: (TileState, seq<Word>))
    requires Valid(t)
    ensures Valid(r.0) && r.0 == t.(outCounter := t.outCounter + 4 * n) && |r.1| == n
  {
    if n == 0 then (t, [])
    else
      var (u, words) := DequeueAll(t, n - 1);
      (DequeueWord(u), words + [OutputWord(u)])
  }

  /** Value i of a stream of words. */
  function Unpack(words: seq<Word>, i: nat): Int8
    requires i / 4 < |words|
  {
    Signed(Lane(words[i / 4], i % 4))
  }

  function UnpackAll(words: seq<Word>, n: nat): (v: seq<Int8>)
    requires WordCount(n) <= |words|
    ensures |v| == n
  {
    seq(n, i requires 0 <= i < n => Unpack(words, i))
  }

  /** Dequeueing n values. */
  function Unqueue(t: TileState, n: nat): (r: (TileState, seq<Int8>))
    requires Valid(t)
    ensures Valid(r.0) && |r.1| == n
  {
    var (u, words) := DequeueAll(t, WordCount(n));
    (u, UnpackAll(words, n))
  }

  /** One inference: queue v, compute, dequeue n values. */
  function Infer(t: TileState, v: seq<Int8>, n: nat): (r: (TileState, seq<Int8>))
    requires Valid(t)
    ensures Valid(r.0) && |r.1| == n
  {
    Unqueue(Process(QueueAll(t, WordsOf(v))), n)
  }

  /** Nothing is queued: the state of a tile before its first queue and after every compute. */
  predicate Idle(t: TileState) {
    t.input == Zeros(t.height) && t.inCounter == 0
  }

  lemma {:induction false} QueueAllImage(t: TileState, words: seq<Word>)
    requires Valid(t) && Idle(t)
    ensures QueueAll(t, words).input == Image(words, t.height)
  {
    if words == [] {
      assert Zeros(t.height) == Image([], t.height);
    } else {
      var init := words[..|words| - 1];
      QueueAllImage(t, init);
      QueueExtendsImage(QueueAll(t, init), init, words[|words| - 1]);
      assert init + [words[|words| - 1]] == words;
    }
  }

  /** The part of v that reaches an input memory of the given size. */
  function Seen(v: seq<Int8>, size: nat): (m: seq<Int8>)
    ensures |m| == size
  {
    seq(size, j requires 0 <= j < size => if j < |v| && Fits(j / 4, size) then v[j] else 0)
  }

  lemma PackedImage(v: seq<Int8>, size: nat)
    ensures Image(WordsOf(v), size) == Seen(v, size)
  {
    var words := WordsOf(v);
    forall j | 0 <= j < size ensures Image(words, size)[j] == Seen(v, size)[j] {
      var k := j / 4;
      if k < |words| && Fits(k, size) {
        LanesOfPack(Chunk(v, k), j % 4);
      }
    }
  }

  lemma {:induction false} DequeueAllWords(t: TileState, n: nat, k: nat)
    requires Valid(t) && k < n
    ensures DequeueAll(t, n).1[k] == OutputWord(t.(outCounter := t.outCounter + 4 * k))
  {
    if k < n - 1 {
      DequeueAllWords(t, n - 1, k);
    }
  }

  lemma OutputLane(t: TileState, i: nat)
    requires Valid(t) && t.outCounter == 0
    ensures Signed(Lane(OutputWord(t.(outCounter := 4 * (i / 4))), i % 4))
            == if Fits(i / 4, t.width) then t.output[i] else 0
  {
    var idx := 4 * (i / 4);
    if Fits(i / 4, t.width) {
      LanesOfPack(t.output[idx..idx + 4], i % 4);
    }
  }

  /** What the inference of v yields in place i, whatever the sizes. */
  function Result(t: TileState, v: seq<Int8>, i: nat): Int8
    requires Valid(t)
  {
    if Fits(i / 4, t.width) then Clamp(Dot(t, Seen(v, t.height), i, t.height)) else 0
  }

  lemma {:induction false} DotDependsOnCrossbar(t: TileState, u: TileState, v: seq<Int8>, i: nat, n: nat)
    requires Valid(t) && Valid(u) && i < t.width && n <= |v| && n <= t.height
    requires u.crossbar == t.crossbar && u.width == t.width && u.height == t.height
    ensures Dot(u, v, i, n) == Dot(t, v, i, n)
  {
    if n > 0 {
      DotDependsOnCrossbar(t, u, v, i, n - 1);
    }
  }

  /** The full result of an inference on an idle tile, for vectors and results of any size; the tile is idle again. */
  lemma InferenceResult(t: TileState, v: seq<Int8>, n: nat)
    requires Valid(t) && Idle(t)
    ensures var (u, r) := Infer(t, v, n);
      && (forall i :: 0 <= i < n ==> r[i] == Result(t, v, i))
      && Idle(u) && u.crossbar == t.crossbar && u.height == t.height && u.width == t.width
  {
    var queued := QueueAll(t, WordsOf(v));
    QueueAllImage(t, WordsOf(v));
    PackedImage(v, t.height);
    var computed := Process(queued);
    var (u, words) := DequeueAll(computed, WordCount(n));
    forall i | 0 <= i < n ensures Unpack(words, i) == Result(t, v, i) {
      DequeueAllWords(computed, WordCount(n), i / 4);
      OutputLane(computed, i);
      if Fits(i / 4, t.width) {
        DotDependsOnCrossbar(t, queued, Seen(v, t.height), i, t.height);
      }
    }
  }

  lemma {:induction false} DotIgnoresZeros(t: TileState, v: seq<Int8>, w: seq<Int8>, i: nat, n: nat)
    requires Valid(t) && i < t.width && |v| <= n <= |w| && n <= t.height
    requires forall j :: 0 <= j < n ==> w[j] == if j < |v| then v[j] else 0
    ensures Dot(t, w, i, n) == Dot(t, v, i, |v|)
  {
    if n > |v| {
      DotIgnoresZeros(t, v, w, i, n - 1);
    } else {
      DotAgrees(t, v, w, i, n);
    }
  }

  lemma {:induction false} DotAgrees(t: TileState, v: seq<Int8>, w: seq<Int8>, i: nat, n: nat)
    requires Valid(t) && i < t.width && n <= |v| && n <= |w| && n <= t.height
    requires forall j :: 0 <= j < n ==> w[j] == v[j]
    ensures Dot(t, w, i, n) == Dot(t, v, i, n)
  {
    if n > 0 {
      DotAgrees(t, v, w, i, n - 1);
    }
  }

  /** Below the capacity all of v is seen; the last value is lost as soon as the padded size reaches it. */
  lemma SeenValues(v: seq<Int8>, size: nat)
    ensures 4 * WordCount(|v|) < size ==>
              forall j :: 0 <= j < size ==> Seen(v, size)[j] == if j < |v| then v[j] else 0
    ensures 0 < |v| <= size <= 4 * WordCount(|v|) ==> Seen(v, size)[|v| - 1] == 0
  {
    if 4 * WordCount(|v|) < size {
      forall j | 0 <= j < |v| ensures Fits(j / 4, size) {
        assert j / 4 < WordCount(|v|);
      }
    } else if 0 < |v| <= size {
      assert (|v| - 1) / 4 + 1 == WordCount(|v|);
    }
  }

  /** When the padded size of the input is strictly below the height, place i of the result is the clamped product. */
  lemma ResultIsProduct(t: TileState, v: seq<Int8>, i: nat)
    requires Valid(t) && 4 * WordCount(|v|) < t.height && Fits(i / 4, t.width)
    ensures |v| <= t.height && Result(t, v, i) == Clamp(Dot(t, v, i, |v|))
  {
    SeenValues(v, t.height);
    DotIgnoresZeros(t, v, Seen(v, t.height), i, t.height);
  }

  /** When both padded sizes are strictly below the dimensions, inference is the clamped product. */
  lemma InferenceIsProduct(t: TileState, v: seq<Int8>, n: nat)
    requires Valid(t) && Idle(t)
    requires 4 * WordCount(|v|) < t.height && 4 * WordCount(n) < t.width
    ensures forall i :: 0 <= i < n ==> Infer(t, v, n).1[i] == Clamp(Dot(t, v, i, |v|))
  {
    InferenceResult(t, v, n);
    forall i | 0 <= i < n ensures Infer(t, v, n).1[i] == Clamp(Dot(t, v, i, |v|)) {
      assert i / 4 < WordCount(n);
      ResultIsProduct(t, v, i);
    }
  }

  /** A tile with a single one in its crossbar, and a vector with a single one. */
  function Spike(height: nat, width: nat, j: nat): (t: TileState)
    requires j < height && 0 < width
    ensures Valid(t) && Idle(t)
  {
    CellInRange(height, width, j, 0);
    Fresh(height, width).(crossbar := Zeros(height * width)[j * width := 1])
  }

  function Unit(n: nat): (v: seq<Int8>)
    requires n > 0
    ensures |v| == n
  {
    Zeros(n - 1) + [1]
  }

  lemma {:induction false} DotOfZeros(t: TileState, v: seq<Int8>, i: nat, n: nat)
    requires Valid(t) && i < t.width && n <= |v| && n <= t.height
    requires forall j :: 0 <= j < n ==> v[j] == 0
    ensures Dot(t, v, i, n) == 0
  {
    if n > 0 {
      DotOfZeros(t, v, i, n - 1);
    }
  }

  lemma SpikeIsLost(height: nat, width: nat, n: nat)
    requires 0 < n <= height <= 4 * WordCount(n) && 4 < width
    ensures Result(Spike(height, width, n - 1), Unit(n), 0) == 0
    ensures Clamp(Dot(Spike(height, width, n - 1), Unit(n), 0, n)) == 1
  {
    var t, v := Spike(height, width, n - 1), Unit(n);
    SeenValues(v, height);
    DotOfZeros(t, Seen(v, height), 0, height);
    DotOfZeros(t, v, 0, n - 1);
    CellInRange(height, width, n - 1, 0);
  }

  ghost predicate Dimensions(t: TileState, v: seq<Int8>, height: nat, width: nat, n: nat) {
    Valid(t) && Idle(t) && t.height == height && t.width == width && |v| == n
  }

  /** The word ending exactly at the capacity is dropped: the padded size must be strictly below the height. */
  lemma InputCapacity(height: nat, width: nat, n: nat)
    requires 0 < n <= height && 4 < width
    ensures (forall t, v :: Dimensions(t, v, height, width, n) ==> Result(t, v, 0) == Clamp(Dot(t, v, 0, n)))
            <==> 4 * WordCount(n) < height
  {
    if 4 * WordCount(n) < height {
      forall t, v | Dimensions(t, v, height, width, n) ensures Result(t, v, 0) == Clamp(Dot(t, v, 0, n)) {
        ResultIsProduct(t, v, 0);
      }
    } else {
      SpikeIsLost(height, width, n);
      assert Dimensions(Spike(height, width, n - 1), Unit(n), height, width, n);
    }
  }

  // --------------------------------------------------------------------- matrices

  /** A row of the matrix handed to mapMatrix; null rows are skipped. */
  datatype Row = NoRow | Row(cells: seq<Int8>)

  predicate IsMatrix(m: seq<Row>, height: nat, width: nat) {
    && |m| >= height
    && forall j :: 0 <= j < height && m[j].Row? ==> |m[j].cells| >= width
  }

  function MapCell(t: TileState, x: int, y: int, row: Row, i: nat): (u: TileState)
    requires Valid(t) && (row.Row? ==> i < |row.cells|)
    ensures Valid(u) && u == t.(crossbar := u.crossbar)
  {
    if row.Row? then ParamWrite(t, x, y, row.cells[i]) else t
  }

  /** The first n rows of column i. */
  function MapColumn(t: TileState, x0: int, y0: int, m: seq<Row>, i: nat, n: nat): (u: TileState)
    requires Valid(t) && IsMatrix(m, n, i + 1)
    ensures Valid(u) && u == t.(crossbar := u.crossbar)
  {
    if n == 0 then t
    else MapCell(MapColumn(t, x0, y0, m, i, n - 1), i + x0, n - 1 + y0, m[n - 1], i)
  }

  /** The first n columns. */
  function MapColumns(t: TileState, x0: int, y0: int, height: nat, m: seq<Row>, n: nat): (u: TileState)
    requires Valid(t) && IsMatrix(m, height, n)
    ensures Valid(u) && u == t.(crossbar := u.crossbar)
  {
    if n == 0 then t
    else MapColumn(MapColumns(t, x0, y0, height, m, n - 1), x0, y0, m, n - 1, height)
  }

  lemma WriteOneCell(t: TileState, x: nat, y: nat, v: Int8, j: nat, i: nat)
    requires Valid(t) && x < t.width && y < t.height && j < t.height && i < t.width
    ensures Cell(ParamWrite(t, x, y, v), j, i) == if i == x && j == y then v else Cell(t, j, i)
  {
    CellInRange(t.height, t.width, y, x);
    CellInRange(t.height, t.width, j, i);
    assert InCrossbar(t, x, y);
    if y * t.width + x == j * t.width + i {
      QuotientIsUnique(t.width, y, x, j, i);
    }
  }

  predicate InBlock(x0: nat, y0: nat, height: nat, width: nat, m: seq<Row>, j: nat, i: nat) {
    x0 <= i < x0 + width && y0 <= j < y0 + height && j - y0 < |m| && m[j - y0].Row?
  }

  lemma {:induction false} MapColumnCells(t: TileState, x0: nat, y0: nat, m: seq<Row>, i: nat, n: nat, row: nat, col: nat)
    requires Valid(t) && IsMatrix(m, n, i + 1)
    requires x0 + i < t.width && y0 + n <= t.height && row < t.height && col < t.width
    ensures Cell(MapColumn(t, x0, y0, m, i, n), row, col)
            == if col == x0 + i && InBlock(x0, y0, n, i + 1, m, row, col) then m[row - y0].cells[i] else Cell(t, row, col)
  {
    if n > 0 {
      MapColumnCells(t, x0, y0, m, i, n - 1, row, col);
      if m[n - 1].Row? {
        WriteOneCell(MapColumn(t, x0, y0, m, i, n - 1), i + x0, n - 1 + y0, m[n - 1].cells[i], row, col);
      }
    }
  }

  /** A matrix mapped inside the crossbar can be read back cell by cell, and nothing else changes. */
  lemma {:induction false} MapMatrixCells(t: TileState, x0: nat, y0: nat, height: nat, m: seq<Row>, n: nat, row: nat, col: nat)
    requires Valid(t) && IsMatrix(m, height, n)
    requires x0 + n <= t.width && y0 + height <= t.height && row < t.height && col < t.width
    ensures Cell(MapColumns(t, x0, y0, height, m, n), row, col)
            == if InBlock(x0, y0, height, n, m, row, col) then m[row - y0].cells[col - x0] else Cell(t, row, col)
  {
    if n > 0 {
      MapMatrixCells(t, x0, y0, height, m, n - 1, row, col);
      MapColumnCells(MapColumns(t, x0, y0, height, m, n - 1), x0, y0, m, n - 1, height, row, col);
    }
  }

  /** The product of v with column i of a matrix, by the matrix alone. */
  function MatrixDot(m: seq<Row>, v: seq<Int8>, i: nat, n: nat): int
    requires n <= |v| && n <= |m| && forall j :: 0 <= j < n ==> m[j].Row? && i < |m[j].cells|
  {
    if n == 0 then 0 else MatrixDot(m, v, i, n - 1) + (v[n - 1] as int) * (m[n - 1].cells[i] as int)
  }

  lemma {:induction false} DotOfMapped(t: TileState, height: nat, width: nat, m: seq<Row>, v: seq<Int8>, i: nat, n: nat)
    requires Valid(t) && IsMatrix(m, height, width) && height <= t.height && width <= t.width
    requires forall j :: 0 <= j < height ==> m[j].Row?
    requires i < width && n <= |v| && n <= height
    ensures Dot(MapColumns(t, 0, 0, height, m, width), v, i, n) == MatrixDot(m, v, i, n)
  {
    if n > 0 {
      DotOfMapped(t, height, width, m, v, i, n - 1);
      MapMatrixCells(t, 0, 0, height, m, width, n - 1, i);
    }
  }

  lemma ResultOfMapped(t: TileState, height: nat, width: nat, m: seq<Row>, v: seq<Int8>, i: nat)
    requires Valid(t) && IsMatrix(m, height, width) && height <= t.height && i < width
    requires forall j :: 0 <= j < height ==> m[j].Row?
    requires |v| <= height && 4 * WordCount(|v|) < t.height && 4 * WordCount(width) < t.width
    ensures Result(MapColumns(t, 0, 0, height, m, width), v, i) == Clamp(MatrixDot(m, v, i, |v|))
  {
    ResultIsProduct(MapColumns(t, 0, 0, height, m, width), v, i);
    DotOfMapped(t, height, width, m, v, i, |v|);
  }

  /** End to end: map a matrix at the origin, then infer; the result is the clamped matrix-vector product. */
  lemma MappedInference(t: TileState, height: nat, width: nat, m: seq<Row>, v: seq<Int8>)
    requires Valid(t) && Idle(t) && IsMatrix(m, height, width) && height <= t.height
    requires forall j :: 0 <= j < height ==> m[j].Row?
    requires |v| <= height && 4 * WordCount(|v|) < t.height && 4 * WordCount(width) < t.width
    ensures var mapped := MapColumns(t, 0, 0, height, m, width);
      forall i :: 0 <= i < width ==> Infer(mapped, v, width).1[i] == Clamp(MatrixDot(m, v, i, |v|))
  {
    var mapped := MapColumns(t, 0, 0, height, m, width);
    InferenceIsProduct(mapped, v, width);
    forall i | 0 <= i < width ensures Infer(mapped, v, width).1[i] == Clamp(MatrixDot(m, v, i, |v|)) {
      DotOfMapped(t, height, width, m, v, i, |v|);
    }
  }
}
