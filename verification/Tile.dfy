/**
 One AIMC tile as a value: a crossbar of int8 weights, an input and an output
 memory, and two counters that move by four cells per queued or dequeued word.
 */
module Tile {
  import opened Words

  datatype TileState = TileState(
    height: nat,
    width: nat,
    crossbar: seq<Int8>,      // height rows of width cells
    input: seq<Int8>,
    output: seq<Int8>,
    inCounter: nat,
    outCounter: nat)

  predicate Valid(t: TileState) {
    && |t.crossbar| == t.height * t.width
    && |t.input| == t.height
    && |t.output| == t.width
    && t.inCounter % 4 == 0
    && t.outCounter % 4 == 0
  }

  function Zeros(n: nat): (z: seq<Int8>)
    ensures |z| == n && forall i :: 0 <= i < n ==> z[i] == 0
  {
    seq(n, i => 0)
  }

  function Fresh(height: nat, width: nat): TileState {
    TileState(height, width, Zeros(height * width), Zeros(height), Zeros(width), 0, 0)
  }

  /** Word k reaches a memory of the given size only if it ends strictly before the last cell. */
  predicate Fits(k: nat, size: nat) {
    4 * k + 4 < size
  }

  // --------------------------------------------------------------- the operations

  function Unpacked(w: Word): (v: seq<Int8>)
    ensures |v| == 4 && forall i :: 0 <= i < 4 ==> v[i] == Signed(Lane(w, i))
  {
    [Signed(Lane(w, 0)), Signed(Lane(w, 1)), Signed(Lane(w, 2)), Signed(Lane(w, 3))]
  }

  function QueueWord(t: TileState, w: Word): (u: TileState)
    requires Valid(t)
    ensures Valid(u) && u == t.(input := u.input, inCounter := t.inCounter + 4)
  {
    var idx := t.inCounter;
    var next := t.(inCounter := idx + 4);
    if idx + 4 < t.height then
      next.(input := t.input[..idx] + Unpacked(w) + t.input[idx + 4..])
    else next
  }

  /** The word read by a dequeue: four output cells, or zero once the counter is past the end. */
  function OutputWord(t: TileState): (w: Word)
    requires Valid(t)
  {
    var idx := t.outCounter;
    if idx + 4 < t.width then
      PackFits(t.output[idx..idx + 4]);
      Pack(t.output[idx..idx + 4])
    else 0
  }

  function DequeueWord(t: TileState): TileState {
    t.(outCounter := t.outCounter + 4)
  }

  lemma CellInRange(height: nat, width: nat, j: nat, i: nat)
    requires j < height && i < width
    ensures 0 <= j * width + i < height * width
  {
    assert (height - j - 1) * width >= 0;
    assert (height - j - 1) * width == height * width - j * width - width;
  }

  function Cell(t: TileState, j: nat, i: nat): Int8
    requires Valid(t) && j < t.height && i < t.width
  {
    CellInRange(t.height, t.width, j, i);
    t.crossbar[j * t.width + i]
  }

  /** The first n terms of the product of an input vector with column i. */
  function Dot(t: TileState, v: seq<Int8>, i: nat, n: nat): int
    requires Valid(t) && i < t.width && n <= |v| && n <= t.height
  {
    if n == 0 then 0 else Dot(t, v, i, n - 1) + v[n - 1] * Cell(t, n - 1, i)
  }

  function Clamp(x: int): Int8 {
    if x < -128 then -128 else if x > 127 then 127 else x
  }

  /** The int8 nearest to an integer: itself if it fits, otherwise the end of the range it passed. */
  lemma ClampIsNearest(x: int, v: Int8)
    ensures -128 <= x <= 127 ==> Clamp(x) == x
    ensures x > 127 ==> Clamp(x) == 127
    ensures x < -128 ==> Clamp(x) == -128
    ensures (if x < Clamp(x) then Clamp(x) - x else x - Clamp(x)) <= if x < v then v - x else x - v
  {}

  function Process(t: TileState): TileState
    requires Valid(t)
  {
    t.(output := seq(t.width, i requires 0 <= i < t.width => Clamp(Dot(t, t.input, i, t.height))),
       input := Zeros(t.height), inCounter := 0, outCounter := 0)
  }

  predicate InCrossbar(t: TileState, x: int, y: int) {
    0 <= y * t.width + x < t.width * t.height
  }

  function ParamWrite(t: TileState, x: int, y: int, v: Int8): TileState
    requires Valid(t)
  {
    if InCrossbar(t, x, y) then t.(crossbar := t.crossbar[y * t.width + x := v]) else t
  }

  function ParamRead(t: TileState, x: int, y: int): Int8
    requires Valid(t)
  {
    if InCrossbar(t, x, y) then t.crossbar[y * t.width + x] else 0
  }

  /** A parameter that was written is read at every position with the same linear index, the others as before. */
  lemma ParamReadAfterWrite(t: TileState, x: int, y: int, v: Int8, i: int, j: int)
    requires Valid(t)
    ensures Valid(ParamWrite(t, x, y, v))
    ensures ParamRead(ParamWrite(t, x, y, v), i, j) ==
            if InCrossbar(t, x, y) && (i - x) == (y - j) * t.width then v else ParamRead(t, i, j)
  {
    assert (y - j) * t.width == y * t.width - j * t.width;
  }

  /** Only the linear index is checked: columns past the width are those of the rows further on. */
  lemma ColumnsWrap(t: TileState, x: int, y: int, rows: int, v: Int8)
    requires Valid(t)
    ensures ParamRead(t, x + rows * t.width, y) == ParamRead(t, x, y + rows)
    ensures ParamWrite(t, x + rows * t.width, y, v) == ParamWrite(t, x, y + rows, v)
  {
    assert (y + rows) * t.width == y * t.width + rows * t.width;
  }

  /** Inside the crossbar the cell is read. */
  lemma ParamReadsCell(t: TileState, x: nat, y: nat)
    requires Valid(t) && x < t.width
    ensures ParamRead(t, x, y) == if y < t.height then Cell(t, y, x) else 0
  {
    if y < t.height {
      CellInRange(t.height, t.width, y, x);
    } else {
      assert (y - t.height) * t.width >= 0;
      assert (y - t.height) * t.width == y * t.width - t.height * t.width;
    }
  }

  // ------------------------------------------------------------------------- runs

  datatype Op = Queue(w: Word) | Dequeue | Compute | Write(x: int, y: int, v: Int8)

  function Do(t: TileState, op: Op): (u: TileState)
    requires Valid(t)
    ensures Valid(u) && u.height == t.height && u.width == t.width
  {
    match op
    case Queue(w) => QueueWord(t, w)
    case Dequeue => DequeueWord(t)
    case Compute => Process(t)
    case Write(x, y, v) => ParamWrite(t, x, y, v)
  }

  function Run(t: TileState, ops: seq<Op>): (u: TileState)
    requires Valid(t)
    ensures Valid(u) && u.height == t.height && u.width == t.width
  {
    if ops == [] then t else Do(Run(t, ops[..|ops| - 1]), ops[|ops| - 1])
  }

  /** The words queued since the last compute. */
  function Pending(ops: seq<Op>): seq<Word> {
    if ops == [] then []
    else
      var earlier := Pending(ops[..|ops| - 1]);
      match ops[|ops| - 1]
      case Queue(w) => earlier + [w]
      case Compute => []
      case _ => earlier
  }

  /** The dequeues since the last compute. */
  function Dequeues(ops: seq<Op>): nat {
    if ops == [] then 0
    else
      var earlier := Dequeues(ops[..|ops| - 1]);
      match ops[|ops| - 1]
      case Dequeue => earlier + 1
      case Compute => 0
      case _ => earlier
  }

  /** What a list of queued words looks like in the input memory. */
  function Image(words: seq<Word>, size: nat): (m: seq<Int8>)
    ensures |m| == size
  {
    seq(size, j requires 0 <= j < size =>
          if j / 4 < |words| && Fits(j / 4, size) then Signed(Lane(words[j / 4], j % 4)) else 0)
  }

  lemma QueueExtendsImage(t: TileState, words: seq<Word>, w: Word)
    requires Valid(t) && t.input == Image(words, t.height) && t.inCounter == 4 * |words|
    ensures QueueWord(t, w).input == Image(words + [w], t.height)
  {
    var u := QueueWord(t, w);
    forall j | 0 <= j < t.height ensures u.input[j] == Image(words + [w], t.height)[j] {
      if j / 4 == |words| {
        assert 4 * |words| <= j < 4 * |words| + 4;
      }
    }
  }

  /**
   After any run the input memory and the counters are those of a plain list
   holding the words queued since the last compute.
   */
  lemma {:induction false} QueueRefinement(height: nat, width: nat, ops: seq<Op>)
    ensures Valid(Fresh(height, width))
    ensures var t := Run(Fresh(height, width), ops);
      && t.input == Image(Pending(ops), height)
      && t.inCounter == 4 * |Pending(ops)|
      && t.outCounter == 4 * Dequeues(ops)
  {
    if ops == [] {
      assert Zeros(height) == Image([], height);
    } else {
      var init := ops[..|ops| - 1];
      QueueRefinement(height, width, init);
      var t := Run(Fresh(height, width), init);
      match ops[|ops| - 1]
      case Queue(w) => QueueExtendsImage(t, Pending(init), w);
      case Compute => assert Zeros(height) == Image([], height);
      case _ =>
    }
  }

  // ----------------------------------------------------------------------- exactness

  /** Every partial sum is small; for the 4000-row tile it is far below 2^53, where binary64 stops being exact. */
  lemma {:induction false} PartialSumsAreSmall(t: TileState, v: seq<Int8>, i: nat, n: nat)
    requires Valid(t) && i < t.width && n <= |v| && n <= t.height
    ensures -(n * 0x4000) <= Dot(t, v, i, n) <= n * 0x4000
    ensures t.height <= 4000 ==> -0x20_0000_0000_0000 < Dot(t, v, i, n) < 0x20_0000_0000_0000
  {
    if n > 0 {
      PartialSumsAreSmall(t, v, i, n - 1);
      ProductIsSmall(v[n - 1], Cell(t, n - 1, i));
    }
  }

  lemma ProductIsSmall(x: Int8, y: Int8)
    ensures -0x4000 <= x * y <= 0x4000
  {
    if x >= 0 {
      assert -128 * x <= x * y <= 128 * x;
    } else {
      assert 128 * x <= x * y <= -128 * x;
    }
  }
}
