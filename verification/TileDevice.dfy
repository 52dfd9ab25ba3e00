/** The emulated device: cores with arrays and counters that its operations update in place. */
module TileDevice {
  import opened Words
  import T = Tile
  import opened Inference

  class Core {
    const height: nat
    const width: nat
    const crossbar: array<Int8>
    const inputMemory: array<Int8>
    const outputMemory: array<Int8>
    var inCounter: nat
    var outCounter: nat

    ghost function Repr(): set<object> {
      {this, crossbar, inputMemory, outputMemory}
    }

    ghost predicate Valid()
      reads Repr()
    {
      && crossbar != inputMemory && crossbar != outputMemory && inputMemory != outputMemory
      && T.Valid(State())
    }

    ghost function State(): T.TileState
      reads Repr()
    {
      T.TileState(height, width, crossbar[..], inputMemory[..], outputMemory[..], inCounter, outCounter)
    }

    constructor (height: nat, width: nat)
      ensures Valid() && fresh(Repr())
      ensures State() == T.Fresh(height, width)
    {
      this.height, this.width := height, width;
      crossbar := new Int8[height * width](i => 0);
      inputMemory := new Int8[height](i => 0);
      outputMemory := new Int8[width](i => 0);
      inCounter, outCounter := 0, 0;
      new;
      assert crossbar[..] == T.Zeros(height * width);
      assert inputMemory[..] == T.Zeros(height);
      assert outputMemory[..] == T.Zeros(width);
    }

    /** The product of the input memory with column i. */
    method Accumulate(i: nat) returns (acc: int)
      requires Valid() && i < width
      ensures acc == T.Dot(State(), inputMemory[..], i, height)
    {
      acc := 0;
      for j := 0 to height
        invariant acc == T.Dot(State(), inputMemory[..], i, j)
      {
        T.CellInRange(height, width, j, i);
        acc := acc + (inputMemory[j] as int) * (crossbar[j * width + i] as int);
      }
    }

    method Process()
      requires Valid()
      modifies this, inputMemory, outputMemory
      ensures Valid() && State() == T.Process(old(State()))
      ensures forall k :: 0 <= k < width ==>
                var exact := T.Dot(old(State()), old(inputMemory[..]), k, height);
                && (-128 <= exact <= 127 ==> outputMemory[k] == exact)
                && (exact > 127 ==> outputMemory[k] == 127)
                && (exact < -128 ==> outputMemory[k] == -128)
    {
      ghost var t := State();
      for i := 0 to width
        invariant Valid()
        invariant State() == t.(output := outputMemory[..])
        invariant forall k :: 0 <= k < i ==> outputMemory[k] == T.Clamp(T.Dot(t, t.input, k, height))
      {
        DotDependsOnCrossbar(t, State(), t.input, i, height);
        var acc := Accumulate(i);
        outputMemory[i] := T.Clamp(acc);
      }
      assert outputMemory[..] == T.Process(t).output;
      for j := 0 to height
        invariant Valid()
        invariant State() == T.Process(t).(input := inputMemory[..], inCounter := t.inCounter, outCounter := t.outCounter)
        invariant forall k :: 0 <= k < j ==> inputMemory[k] == 0
      {
        inputMemory[j] := 0;
      }
      assert inputMemory[..] == T.Zeros(height);
      inCounter := 0;
      outCounter := 0;
    }

    /** The four bytes of a word go to the cells from idx on. */
    method WriteLanes(idx: nat, val: Word)
      requires idx + 4 <= inputMemory.Length
      modifies inputMemory
      ensures inputMemory[..] == old(inputMemory[..idx]) + T.Unpacked(val) + old(inputMemory[idx + 4..])
    {
      for i := 0 to 4
        invariant forall k :: 0 <= k < inputMemory.Length ==>
                    inputMemory[k] == if idx <= k < idx + i then T.Unpacked(val)[k - idx] else old(inputMemory[k])
      {
        inputMemory[idx + i] := Signed(Lane(val, i));
      }
    }

    method Queue(val: Word)
      requires Valid()
      modifies this`inCounter, inputMemory
      ensures Valid() && State() == T.QueueWord(old(State()), val)
    {
      if inCounter + 4 < height {
        WriteLanes(inCounter, val);
      }
      inCounter := inCounter + 4;
    }

    /** The four cells from idx on, assembled into a word from the highest lane down. */
    method ReadLanes(idx: nat) returns (result: Word)
      requires idx + 4 <= outputMemory.Length
      ensures result == Pack(outputMemory[idx..idx + 4])
    {
      result := 0;
      ghost var cells := outputMemory[idx..idx + 4];
      var i := 4;
      while i > 0
        invariant 0 <= i <= 4
        invariant result == Tail(cells, i) < Weight(4 - i)
      {
        i := i - 1;
        TailStep(cells, i);
        assert cells[i] == outputMemory[idx + i];
        result := BitOr(result * 256 % 0x1_0000_0000, Byte(outputMemory[idx + i]));
      }
      TailIsPack(cells);
    }

    method Dequeue() returns (result: Word)
      requires Valid()
      modifies this`outCounter
      ensures Valid() && State() == T.DequeueWord(old(State())) && result == T.OutputWord(old(State()))
    {
      result := 0;
      if outCounter + 4 < width {
        result := ReadLanes(outCounter);
      }
      outCounter := outCounter + 4;
    }

    /** The lanes from i up, as the dequeue loop assembles them. */
    static function Tail(v: seq<Int8>, i: nat): nat
      requires |v| == 4 && i <= 4
      decreases 4 - i
    {
      if i == 4 then 0 else Byte(v[i]) + 256 * Tail(v, i + 1)
    }

    static lemma TailStep(v: seq<Int8>, i: nat)
      requires |v| == 4 && i < 4 && Tail(v, i + 1) < Weight(4 - i - 1)
      ensures BitOr(Tail(v, i + 1) * 256 % 0x1_0000_0000, Byte(v[i])) == Tail(v, i) < Weight(4 - i)
    {
      var rest := Tail(v, i + 1);
      assert Weight(4 - i) == 256 * Weight(4 - i - 1) <= 0x1_0000_0000;
      assert rest * 256 % 0x1_0000_0000 == rest * 256;
      WeightIsPow2(1);
      OrDisjoint(Byte(v[i]), rest, 8);
      OrCommutes(Byte(v[i]), rest * 256);
    }

    static lemma TailIsPack(v: seq<Int8>)
      requires |v| == 4
      ensures Tail(v, 0) == Pack(v)
    {
      PackSum(v);
      assert Tail(v, 4) == 0;
      assert Tail(v, 3) == Byte(v[3]);
      assert Tail(v, 2) == Byte(v[2]) + 256 * Byte(v[3]);
      assert Tail(v, 1) == Byte(v[1]) + 256 * Tail(v, 2);
    }

    method ParamRead(x: int, y: int) returns (v: Int8)
      requires Valid()
      ensures v == T.ParamRead(State(), x, y)
    {
      var idx := y * width + x;
      if 0 <= idx < width * height {
        return crossbar[idx];
      }
      return 0;
    }

    method ParamWrite(x: int, y: int, val: Int8)
      requires Valid()
      modifies crossbar
      ensures Valid() && State() == T.ParamWrite(old(State()), x, y, val)
    {
      var idx := y * width + x;
      if 0 <= idx < width * height {
        crossbar[idx] := val;
      }
    }
  }

  /** The device: a number of cores that share nothing. A core id out of range is ignored. */
  class Device {
    const cores: seq<Core>

    predicate InRange(tid: int) {
      0 <= tid < |cores|
    }

    ghost function Repr(tid: int): set<object> {
      if InRange(tid) then cores[tid].Repr() else {}
    }

    ghost predicate Valid()
      reads set i, o | 0 <= i < |cores| && o in cores[i].Repr() :: o
    {
      && (forall i :: 0 <= i < |cores| ==> cores[i].Valid())
      && (forall i, j :: 0 <= i < j < |cores| ==> cores[i].Repr() !! cores[j].Repr())
    }

    constructor (count: nat, height: nat, width: nat)
      ensures Valid() && |cores| == count
      ensures forall i :: 0 <= i < count ==> fresh(cores[i].Repr()) && cores[i].State() == T.Fresh(height, width)
    {
      var made: seq<Core> := [];
      for n := 0 to count
        invariant |made| == n
        invariant forall i :: 0 <= i < n ==>
                    made[i].Valid() && fresh(made[i].Repr()) && made[i].State() == T.Fresh(height, width)
        invariant forall i :: 0 <= i < n ==> forall o :: o in made[i].Repr() ==> allocated(o)
        invariant forall i, j :: 0 <= i < j < n ==> made[i].Repr() !! made[j].Repr()
      {
        var core := new Core(height, width);
        made := made + [core];
      }
      cores := made;
    }

    /** Nothing happened to any core but tid. */
    twostate predicate OthersUntouched(tid: int)
      reads set i, o | 0 <= i < |cores| && o in cores[i].Repr() :: o
    {
      forall i :: 0 <= i < |cores| && i != tid ==> cores[i].State() == old(cores[i].State())
    }

    method Process(tid: int)
      requires Valid()
      modifies Repr(tid)
      ensures Valid() && OthersUntouched(tid)
      ensures InRange(tid) ==> cores[tid].State() == T.Process(old(cores[tid].State()))
    {
      if InRange(tid) {
        cores[tid].Process();
      }
    }

    method Queue(tid: int, val: Word)
      requires Valid()
      modifies Repr(tid)
      ensures Valid() && OthersUntouched(tid)
      ensures InRange(tid) ==> cores[tid].State() == T.QueueWord(old(cores[tid].State()), val)
    {
      if InRange(tid) {
        cores[tid].Queue(val);
      }
    }

    method Dequeue(tid: int) returns (result: Word)
      requires Valid()
      modifies Repr(tid)
      ensures Valid() && OthersUntouched(tid)
      ensures InRange(tid) ==> cores[tid].State() == T.DequeueWord(old(cores[tid].State()))
      ensures result == if InRange(tid) then T.OutputWord(old(cores[tid].State())) else 0
    {
      result := 0;
      if InRange(tid) {
        result := cores[tid].Dequeue();
      }
    }

    method ParamRead(tid: int, x: int, y: int) returns (v: Int8)
      requires Valid()
      ensures v == if InRange(tid) then T.ParamRead(cores[tid].State(), x, y) else 0
    {
      v := 0;
      if InRange(tid) {
        v := cores[tid].ParamRead(x, y);
      }
    }

    method ParamWrite(tid: int, x: int, y: int, val: Int8)
      requires Valid()
      modifies Repr(tid)
      ensures Valid() && OthersUntouched(tid)
      ensures InRange(tid) ==> cores[tid].State() == T.ParamWrite(old(cores[tid].State()), x, y, val)
    {
      if InRange(tid) {
        cores[tid].ParamWrite(x, y, val);
      }
    }
  }
}
