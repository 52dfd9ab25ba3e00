/** The library loops that move int8 vectors and matrices in and out of the device. */
module TileLibrary {
  import opened Words
  import T = Tile
  import opened Inference
  import opened TileDevice

  ghost predicate Outside(d: Device, o: object) {
    forall i :: 0 <= i < |d.cores| ==> o !in d.cores[i].Repr()
  }

  /** The packing register once the loop has looked at the first i values. */
  ghost function Register(v: seq<Int8>, i: nat): nat
    requires i <= |v|
  {
    if i == 0 then 0
    else BitOr(if (i - 1) % 4 == 0 then 0 else Register(v, i - 1), Byte(v[i - 1]) * Weight((i - 1) % 4))
  }

  /** The words the loop has queued by then. */
  ghost function Queued(v: seq<Int8>, i: nat): seq<nat>
    requires i <= |v|
  {
    if i == 0 then []
    else if (i - 1) % 4 == 0 && i - 1 > 0 then Queued(v, i - 1) + [Register(v, i - 1)]
    else Queued(v, i - 1)
  }

  /** Where the word that value i - 1 goes into begins. */
  function Start(i: nat): nat
    requires i > 0
  {
    4 * ((i - 1) / 4)
  }

  lemma StartStep(i: nat)
    requires i > 0
    ensures Start(i) <= i - 1 < Start(i) + 4 && (i - 1) % 4 == i - 1 - Start(i)
    ensures (i - 1) % 4 != 0 ==> i > 1 && Start(i - 1) == Start(i)
    ensures (i - 1) % 4 == 0 && i > 1 ==> Start(i - 1) == i - 1 - 4 && (i - 2) / 4 + 1 == (i - 1) / 4
  {}

  lemma {:induction false} RegisterIsPack(v: seq<Int8>, i: nat)
    requires 0 < i <= |v|
    ensures Start(i) < i && i - Start(i) <= 4
    ensures Register(v, i) == Pack(v[Start(i)..i]) < 0x1_0000_0000
  {
    StartStep(i);
    var lane := v[Start(i)..i - 1];
    if (i - 1) % 4 == 0 {
      assert lane == [];
    } else {
      RegisterIsPack(v, i - 1);
    }
    PackStep(lane, v[i - 1]);
    assert lane + [v[i - 1]] == v[Start(i)..i];
  }

  lemma RegisterFits(v: seq<Int8>, i: nat)
    requires i <= |v|
    ensures Register(v, i) < 0x1_0000_0000
  {
    if i > 0 {
      RegisterIsPack(v, i);
    }
  }

  /** Word k is full or the last one when value i is the next. */
  predicate Ends(v: seq<Int8>, k: nat, i: nat) {
    4 * k < i <= |v| && (i == 4 * k + 4 || (i < 4 * k + 4 && i == |v|))
  }

  lemma ChunkEndsAt(v: seq<Int8>, k: nat, i: nat)
    requires Ends(v, k, i)
    ensures k < WordCount(|v|) && Chunk(v, k) == v[4 * k..i]
    ensures i == |v| ==> WordCount(|v|) == k + 1
  {}

  lemma WordAt(v: seq<Int8>, k: nat, i: nat)
    requires Ends(v, k, i)
    ensures k < |WordsOf(v)| && WordsOf(v)[k] == Pack(v[4 * k..i])
    ensures i == |v| ==> |WordsOf(v)| == k + 1
  {
    ChunkEndsAt(v, k, i);
  }

  lemma RegisterIsWord(v: seq<Int8>, i: nat)
    requires 0 < i <= |v| && (i % 4 == 0 || i == |v|)
    ensures var k := (i - 1) / 4;
      && k < |WordsOf(v)| && WordsOf(v)[k] == Register(v, i)
      && (i == |v| ==> |WordsOf(v)| == k + 1)
  {
    RegisterIsPack(v, i);
    WordAt(v, (i - 1) / 4, i);
  }

  lemma {:induction false} QueuedIsPrefix(v: seq<Int8>, i: nat)
    requires 0 < i <= |v|
    ensures (i - 1) / 4 <= |WordsOf(v)| && Queued(v, i) == WordsOf(v)[..(i - 1) / 4]
  {
    if i > 1 {
      QueuedIsPrefix(v, i - 1);
      StartStep(i);
      if (i - 1) % 4 == 0 {
        RegisterIsWord(v, i - 1);
        PrefixGrows(WordsOf(v), (i - 2) / 4);
      }
    }
  }

  /** In the end the loop has queued exactly the words of v. */
  lemma QueuedIsWords(v: seq<Int8>)
    requires v != []
    ensures Queued(v, |v|) + [Register(v, |v|)] == WordsOf(v)
  {
    QueuedIsPrefix(v, |v|);
    RegisterIsWord(v, |v|);
    Rejoin(WordsOf(v), (|v| - 1) / 4, Register(v, |v|), Queued(v, |v|));
  }

  lemma PrefixGrows(words: seq<Word>, k: nat)
    requires k < |words|
    ensures words[..k] + [words[k]] == words[..k + 1]
  {}

  lemma Rejoin(words: seq<Word>, k: nat, last: nat, init: seq<nat>)
    requires |words| == k + 1 && init == words[..k] && last == words[k]
    ensures init + [last] == words
  {}

  lemma QueueOneMore(t: T.TileState, words: seq<Word>, w: Word)
    requires T.Valid(t)
    ensures QueueAll(t, words + [w]) == T.QueueWord(QueueAll(t, words), w)
  {
    assert (words + [w])[..|words|] == words;
  }

  method QueueVector(d: Device, size: int, v: array?<Int8>, tid: int)
    requires d.Valid()
    requires v != null ==> size <= v.Length && Outside(d, v)
    modifies d.Repr(tid)
    ensures d.Valid() && d.OthersUntouched(tid)
    ensures d.InRange(tid) ==>
              d.cores[tid].State() == QueueAll(old(d.cores[tid].State()), WordsOf(if v == null || size <= 0 then [] else v[..size]))
  {
    if v == null || size <= 0 {
      assert WordsOf([]) == [];
      return;
    }
    ghost var before := if d.InRange(tid) then d.cores[tid].State() else T.Fresh(0, 0);
    ghost var values := v[..size];
    ghost var words: seq<Word> := [];
    var tmp: Word := 0;
    for i := 0 to size
      invariant d.Valid() && d.OthersUntouched(tid)
      invariant words == Queued(values, i) && tmp == Register(values, i)
      invariant d.InRange(tid) ==> d.cores[tid].State() == QueueAll(before, words)
    {
      RegisterFits(values, i + 1);
      if i % 4 == 0 && i > 0 {
        QueueOneMore(before, words, tmp);
        d.Queue(tid, tmp);
        words := words + [tmp];
        tmp := 0;
      }
      tmp := BitOr(tmp, Byte(v[i]) * Weight(i % 4));
    }
    QueuedIsWords(values);
    QueueOneMore(before, words, tmp);
    d.Queue(tid, tmp);
  }

  /** The word being unpacked, shifted down to its next lane. */
  ghost predicate AtLane(tmp: Word, words: seq<Word>, i: nat) {
    i % 4 != 0 ==> words != [] && tmp == words[|words| - 1] / Weight(i % 4)
  }

  lemma UnpackStep(words: seq<Word>, tmp: Word, i: nat)
    requires |words| == WordCount(i + 1)
    requires tmp == words[|words| - 1] / Weight(i % 4)
    ensures AtLane(tmp / 256, words, i + 1)
    ensures UnpackAll(words, i + 1) == UnpackAll(words, i) + [Signed(tmp % 256)]
  {
    assert i / 4 == |words| - 1;
    ShiftedLane(words[i / 4], i % 4);
  }

  /** Shifting a word right by 8 once more exposes the next lane. */
  lemma ShiftedLane(w: Word, i: nat)
    requires i < 4
    ensures (w / Weight(i)) % 256 == Lane(w, i)
    ensures (w / Weight(i)) / 256 == w / Weight(i + 1)
  {}

  lemma UnpackMore(words: seq<Word>, w: Word, i: nat)
    requires |words| == WordCount(i)
    ensures UnpackAll(words + [w], i) == UnpackAll(words, i)
    ensures WordCount(i + 1) == WordCount(i) + (if i % 4 == 0 then 1 else 0)
  {}

  /** The words taken from core tid since it was in state before; out of range they are all zero. */
  ghost predicate Taken(d: Device, tid: int, before: T.TileState, words: seq<Word>)
    reads d.Repr(tid)
  {
    if d.InRange(tid) then T.Valid(before) && (d.cores[tid].State(), words) == DequeueAll(before, |words|)
    else forall k :: 0 <= k < |words| ==> words[k] == 0
  }

  /** Every fourth value takes a new word from the device. */
  method Refill(d: Device, tid: int, i: nat, tmp: Word, ghost before: T.TileState, ghost words: seq<Word>)
    returns (tmp': Word, ghost words': seq<Word>)
    requires d.Valid() && |words| == WordCount(i) && AtLane(tmp, words, i) && Taken(d, tid, before, words)
    modifies d.Repr(tid)
    ensures d.Valid() && d.OthersUntouched(tid)
    ensures |words'| == WordCount(i + 1) && Taken(d, tid, before, words')
    ensures tmp' == words'[|words'| - 1] / Weight(i % 4)
    ensures UnpackAll(words', i) == UnpackAll(words, i)
  {
    tmp', words' := tmp, words;
    if i % 4 == 0 {
      tmp' := d.Dequeue(tid);
      UnpackMore(words, tmp', i);
      words' := words + [tmp'];
    } else {
      UnpackMore(words, 0, i);
    }
  }

  method SetCell(v: array<Int8>, i: nat, x: Int8, size: nat)
    requires i < size <= v.Length
    modifies v
    ensures v[..i + 1] == old(v[..i]) + [x] && v[size..] == old(v[size..])
  {
    v[i] := x;
  }

  lemma ZeroWords(words: seq<Word>, n: nat)
    requires WordCount(n) <= |words| && forall k :: 0 <= k < |words| ==> words[k] == 0
    ensures UnpackAll(words, n) == T.Zeros(n)
  {}

  method DequeueVector(d: Device, size: int, v: array?<Int8>, tid: int)
    requires d.Valid()
    requires v != null ==> size <= v.Length && Outside(d, v)
    modifies d.Repr(tid), if v == null then {} else {v}
    ensures d.Valid() && d.OthersUntouched(tid)
    ensures v != null && size > 0 && d.InRange(tid) ==>
              (d.cores[tid].State(), v[..size]) == Unqueue(old(d.cores[tid].State()), size)
    ensures v != null && size > 0 && !d.InRange(tid) ==> v[..size] == T.Zeros(size)
    ensures v != null && size > 0 ==> v[size..] == old(v[size..])
    ensures (v == null || size <= 0) && d.InRange(tid) ==> d.cores[tid].State() == old(d.cores[tid].State())
  {
    if v == null || size <= 0 {
      return;
    }
    ghost var before := if d.InRange(tid) then d.cores[tid].State() else T.Fresh(0, 0);
    ghost var words := UnpackInto(d, size, v, tid, before);
    if !d.InRange(tid) {
      ZeroWords(words, size);
    }
  }

  /** The body of the unpacking loop. */
  method UnpackOne(d: Device, size: nat, v: array<Int8>, tid: int, i: nat, tmp: Word, ghost before: T.TileState, ghost words: seq<Word>)
    returns (tmp': Word, ghost words': seq<Word>)
    requires d.Valid() && i < size <= v.Length && Outside(d, v)
    requires |words| == WordCount(i) && AtLane(tmp, words, i) && Taken(d, tid, before, words)
    requires v[..i] == UnpackAll(words, i)
    modifies d.Repr(tid), v
    ensures d.Valid() && d.OthersUntouched(tid)
    ensures |words'| == WordCount(i + 1) && AtLane(tmp', words', i + 1) && Taken(d, tid, before, words')
    ensures v[..i + 1] == UnpackAll(words', i + 1) && v[size..] == old(v[size..])
  {
    tmp', words' := Refill(d, tid, i, tmp, before, words);
    UnpackStep(words', tmp', i);
    SetCell(v, i, Signed(tmp' % 256), size);
    tmp' := tmp' / 256;
  }

  method UnpackInto(d: Device, size: nat, v: array<Int8>, tid: int, ghost before: T.TileState) returns (ghost words: seq<Word>)
    requires d.Valid() && size <= v.Length && Outside(d, v) && Taken(d, tid, before, [])
    modifies d.Repr(tid), v
    ensures d.Valid() && d.OthersUntouched(tid)
    ensures |words| == WordCount(size) && Taken(d, tid, before, words)
    ensures v[..size] == UnpackAll(words, size) && v[size..] == old(v[size..])
  {
    words := [];
    var tmp: Word := 0;
    for i := 0 to size
      invariant d.Valid() && d.OthersUntouched(tid)
      invariant |words| == WordCount(i) && AtLane(tmp, words, i) && Taken(d, tid, before, words)
      invariant v[..i] == UnpackAll(words, i) && v[size..] == old(v[size..])
    {
      tmp, words := UnpackOne(d, size, v, tid, i, tmp, before, words);
    }
  }

  method MapMatrix(d: Device, x0: int, y0: int, height: int, width: int, m: array?<Row>)
    requires d.Valid()
    requires m != null && height > 0 && width > 0 ==> Outside(d, m) && IsMatrix(m[..], height, width)
    modifies d.Repr(0)
    ensures d.Valid() && d.OthersUntouched(0)
    ensures d.InRange(0) ==>
              d.cores[0].State() ==
              if m == null || height <= 0 || width <= 0 then old(d.cores[0].State())
              else MapColumns(old(d.cores[0].State()), x0, y0, height, m[..], width)
  {
    if m == null || height <= 0 || width <= 0 {
      return;
    }
    ghost var rows := m[..];
    for i := 0 to width
      invariant d.Valid() && d.OthersUntouched(0) && m[..] == rows
      invariant d.InRange(0) ==> d.cores[0].State() == MapColumns(old(d.cores[0].State()), x0, y0, height, rows, i)
    {
      ghost var column := if d.InRange(0) then d.cores[0].State() else T.Fresh(0, 0);
      for j := 0 to height
        invariant d.Valid() && d.OthersUntouched(0) && m[..] == rows
        invariant d.InRange(0) ==> T.Valid(column) && d.cores[0].State() == MapColumn(column, x0, y0, rows, i, j)
      {
        if m[j].Row? {
          assert m[j] == rows[j];
          d.ParamWrite(0, i + x0, j + y0, m[j].cells[i]);
        }
      }
    }
  }

  /**
   The inference loop: queue, compute, dequeue, once per input. Each output
   depends on its own input and the crossbar alone.
   */
  method Inferences(d: Device, inputs: seq<seq<Int8>>, n: nat) returns (outputs: seq<seq<Int8>>)
    requires d.Valid() && d.InRange(0) && Idle(d.cores[0].State())
    modifies d.Repr(0)
    ensures d.Valid() && d.OthersUntouched(0)
    ensures |outputs| == |inputs|
    ensures forall k :: 0 <= k < |inputs| ==> |outputs[k]| == n
    ensures forall k, i :: 0 <= k < |inputs| && 0 <= i < n ==> outputs[k][i] == Result(old(d.cores[0].State()), inputs[k], i)
  {
    outputs := [];
    ghost var t := d.cores[0].State();
    for k := 0 to |inputs|
      invariant d.Valid() && d.OthersUntouched(0)
      invariant Idle(d.cores[0].State()) && SameWeights(t, d.cores[0].State())
      invariant |outputs| == k
      invariant forall l :: 0 <= l < k ==> |outputs[l]| == n
      invariant forall l, i :: 0 <= l < k && 0 <= i < n ==> outputs[l][i] == Result(t, inputs[l], i)
    {
      var output := InferOnce(d, t, inputs[k], n);
      outputs := outputs + [output];
    }
  }

  /** No row is null, and padded inputs and outputs stay strictly below the dimensions of the tile. */
  ghost predicate FitsTile(t: T.TileState, m: seq<Row>, height: nat, width: nat, inputs: seq<seq<Int8>>) {
    && IsMatrix(m, height, width) && (forall j :: 0 <= j < height ==> m[j].Row?)
    && height <= t.height && 4 * WordCount(width) < t.width
    && forall k :: 0 <= k < |inputs| ==> |inputs[k]| <= height && 4 * WordCount(|inputs[k]|) < t.height
  }

  /** Map a matrix at the origin of an idle tile, then infer: every output is the clamped matrix-vector product. */
  method MapAndInfer(d: Device, m: array<Row>, height: nat, width: nat, inputs: seq<seq<Int8>>)
    returns (outputs: seq<seq<Int8>>)
    requires d.Valid() && d.InRange(0) && Idle(d.cores[0].State()) && Outside(d, m)
    requires 0 < height && 0 < width && FitsTile(d.cores[0].State(), m[..], height, width, inputs)
    modifies d.Repr(0)
    ensures d.Valid() && d.OthersUntouched(0) && m[..] == old(m[..])
    ensures |outputs| == |inputs|
    ensures forall k, i :: 0 <= k < |inputs| && 0 <= i < width ==>
              |outputs[k]| == width && outputs[k][i] == T.Clamp(MatrixDot(m[..], inputs[k], i, |inputs[k]|))
    ensures forall k, i :: 0 <= k < |inputs| && 0 <= i < width ==>
              var exact := MatrixDot(m[..], inputs[k], i, |inputs[k]|);
              && (-128 <= exact <= 127 ==> outputs[k][i] == exact)
              && (exact > 127 ==> outputs[k][i] == 127)
              && (exact < -128 ==> outputs[k][i] == -128)
  {
    ghost var t, rows := d.cores[0].State(), m[..];
    MapMatrix(d, 0, 0, height, width, m);
    outputs := Inferences(d, inputs, width);
    forall k, i | 0 <= k < |inputs| && 0 <= i < width
      ensures outputs[k][i] == T.Clamp(MatrixDot(rows, inputs[k], i, |inputs[k]|))
    {
      ResultOfMapped(t, height, width, rows, inputs[k], i);
    }
  }

  predicate SameWeights(t: T.TileState, u: T.TileState) {
    T.Valid(t) && T.Valid(u) && u.crossbar == t.crossbar && u.height == t.height && u.width == t.width
  }

  lemma SameWeightsSameResult(t: T.TileState, u: T.TileState, v: seq<Int8>, i: nat)
    requires SameWeights(t, u)
    ensures Result(u, v, i) == Result(t, v, i)
  {
    if T.Fits(i / 4, t.width) {
      DotDependsOnCrossbar(t, u, Seen(v, t.height), i, t.height);
    }
  }

  method InferOnce(d: Device, ghost t: T.TileState, input: seq<Int8>, n: nat) returns (output: seq<Int8>)
    requires d.Valid() && d.InRange(0) && Idle(d.cores[0].State()) && SameWeights(t, d.cores[0].State())
    modifies d.Repr(0)
    ensures d.Valid() && d.OthersUntouched(0)
    ensures Idle(d.cores[0].State()) && SameWeights(t, d.cores[0].State())
    ensures |output| == n && forall i :: 0 <= i < n ==> output[i] == Result(t, input, i)
  {
    ghost var u := d.cores[0].State();
    InferenceResult(u, input, n);
    output := RunOnce(d, input, n);
    forall i | 0 <= i < n ensures output[i] == Result(t, input, i) {
      SameWeightsSameResult(t, u, input, i);
    }
  }

  method Load(d: Device, input: seq<Int8>)
    requires d.Valid() && d.InRange(0)
    modifies d.Repr(0)
    ensures d.Valid() && d.OthersUntouched(0)
    ensures d.cores[0].State() == QueueAll(old(d.cores[0].State()), WordsOf(input))
  {
    var v := new Int8[|input|](i requires 0 <= i < |input| => input[i]);
    assert v[..|input|] == input;
    assert |input| == 0 ==> input == [];
    QueueVector(d, |input|, v, 0);
  }

  method Fetch(d: Device, n: nat) returns (output: seq<Int8>)
    requires d.Valid() && d.InRange(0)
    modifies d.Repr(0)
    ensures d.Valid() && d.OthersUntouched(0)
    ensures (d.cores[0].State(), output) == Unqueue(old(d.cores[0].State()), n)
  {
    ghost var t := d.cores[0].State();
    var r := new Int8[n];
    DequeueVector(d, n, r, 0);
    output := r[..n];
    assert n == 0 ==> (t, output) == Unqueue(t, 0);
  }

  method RunOnce(d: Device, input: seq<Int8>, n: nat) returns (output: seq<Int8>)
    requires d.Valid() && d.InRange(0)
    modifies d.Repr(0)
    ensures d.Valid() && d.OthersUntouched(0)
    ensures (d.cores[0].State(), output) == Infer(old(d.cores[0].State()), input, n)
  {
    Load(d, input);
    d.Process(0);
    output := Fetch(d, n);
  }
}
