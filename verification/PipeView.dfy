/**
 The print queue of the pipeline viewer. Instructions arrive out of order; the
 queue is sorted and drained to a lower threshold whenever it outgrows an upper
 one, and drained completely at the end of the trace.
 */
module PipeView {

  datatype Inst = Inst(sn: int, fetch: int, retire: int, text: string)

  // -------------------------------------------------------------------- stable sorting

  /** x goes behind every instruction that does not have a larger sequence number. */
  function Insert(x: Inst, s: seq<Inst>): seq<Inst> {
    if s == [] || s[|s| - 1].sn <= x.sn then s + [x]
    else Insert(x, s[..|s| - 1]) + [s[|s| - 1]]
  }

  /** Sorting by sequence number, equal numbers in order of arrival. */
  function Sort(s: seq<Inst>): seq<Inst> {
    if s == [] then [] else Insert(s[|s| - 1], Sort(s[..|s| - 1]))
  }

  predicate Ascending(s: seq<Inst>) {
    forall i, j :: 0 <= i < j < |s| ==> s[i].sn <= s[j].sn
  }

  function WithSn(s: seq<Inst>, sn: int): seq<Inst> {
    if s == [] then []
    else
      var before := WithSn(s[..|s| - 1], sn);
      if s[|s| - 1].sn == sn then before + [s[|s| - 1]] else before
  }

  lemma {:induction false} InsertSorts(x: Inst, s: seq<Inst>)
    requires Ascending(s)
    ensures Ascending(Insert(x, s))
    ensures forall i :: 0 <= i < |Insert(x, s)| ==> Insert(x, s)[i] in s || Insert(x, s)[i] == x
  {
    if !(s == [] || s[|s| - 1].sn <= x.sn) {
      InsertSorts(x, s[..|s| - 1]);
    }
  }

  lemma BagOfLast(s: seq<Inst>)
    requires s != []
    ensures multiset(s) == multiset(s[..|s| - 1]) + multiset{s[|s| - 1]}
  {
    assert s == s[..|s| - 1] + [s[|s| - 1]];
  }

  lemma {:induction false} InsertPermutes(x: Inst, s: seq<Inst>)
    ensures multiset(Insert(x, s)) == multiset(s) + multiset{x}
  {
    if !(s == [] || s[|s| - 1].sn <= x.sn) {
      InsertPermutes(x, s[..|s| - 1]);
      assert s == s[..|s| - 1] + [s[|s| - 1]];
    }
  }

  lemma WithSnAppends(s: seq<Inst>, x: Inst, sn: int)
    ensures WithSn(s + [x], sn) == if x.sn == sn then WithSn(s, sn) + [x] else WithSn(s, sn)
  {
    assert (s + [x])[..|s|] == s;
  }

  lemma {:induction false} InsertIsStable(x: Inst, s: seq<Inst>, sn: int)
    requires Ascending(s)
    ensures WithSn(Insert(x, s), sn) == if x.sn == sn then WithSn(s, sn) + [x] else WithSn(s, sn)
  {
    if s == [] || s[|s| - 1].sn <= x.sn {
      WithSnAppends(s, x, sn);
    } else {
      var init, last := s[..|s| - 1], s[|s| - 1];
      InsertIsStable(x, init, sn);
      WithSnAppends(Insert(x, init), last, sn);
      assert x.sn == sn ==> last.sn != sn;
    }
  }

  lemma {:induction false} SortAscends(s: seq<Inst>)
    ensures Ascending(Sort(s)) && |Sort(s)| == |s|
  {
    if s != [] {
      SortAscends(s[..|s| - 1]);
      InsertSorts(s[|s| - 1], Sort(s[..|s| - 1]));
      InsertLength(s[|s| - 1], Sort(s[..|s| - 1]));
    }
  }

  lemma {:induction false} InsertLength(x: Inst, s: seq<Inst>)
    ensures |Insert(x, s)| == |s| + 1
  {
    if !(s == [] || s[|s| - 1].sn <= x.sn) {
      InsertLength(x, s[..|s| - 1]);
    }
  }

  lemma {:induction false} SortPermutes(s: seq<Inst>)
    ensures multiset(Sort(s)) == multiset(s)
  {
    if s != [] {
      var init, x := s[..|s| - 1], s[|s| - 1];
      SortPermutes(init);
      InsertPermutes(x, Sort(init));
      BagOfLast(s);
    }
  }

  lemma {:induction false} SortKeepsEquals(s: seq<Inst>, sn: int)
    ensures WithSn(Sort(s), sn) == WithSn(s, sn)
  {
    if s != [] {
      SortKeepsEquals(s[..|s| - 1], sn);
      SortAscends(s[..|s| - 1]);
      InsertIsStable(s[|s| - 1], Sort(s[..|s| - 1]), sn);
    }
  }

  /** Sort is the stable sort: ascending, a permutation, and order-preserving among equals. */
  lemma SortIsStableSort(s: seq<Inst>)
    ensures Ascending(Sort(s))
    ensures multiset(Sort(s)) == multiset(s)
    ensures forall sn :: WithSn(Sort(s), sn) == WithSn(s, sn)
  {
    SortAscends(s);
    SortPermutes(s);
    forall sn ensures WithSn(Sort(s), sn) == WithSn(s, sn) {
      SortKeepsEquals(s, sn);
    }
  }

  lemma {:induction false} SortOfSorted(s: seq<Inst>)
    requires Ascending(s)
    ensures Sort(s) == s
  {
    if s != [] {
      var init, x := s[..|s| - 1], s[|s| - 1];
      SortOfSorted(init);
      assert init == [] || init[|init| - 1].sn <= x.sn;
      assert init + [x] == s;
    }
  }

  lemma {:induction false} InsertBehind(x: Inst, a: seq<Inst>, b: seq<Inst>)
    requires a == [] || a[|a| - 1].sn <= x.sn
    ensures Insert(x, a + b) == a + Insert(x, b)
  {
    if b == [] {
      assert a + b == a;
    } else if b[|b| - 1].sn > x.sn {
      InsertBehind(x, a, b[..|b| - 1]);
      assert (a + b)[..|a + b| - 1] == a + b[..|b| - 1];
    }
  }

  // ------------------------------------------------------------------------ the queue

  /** Lines print_insts holds back; zero switches a bound off. */
  datatype Filter = Filter(snStart: int, snStop: int, tickStart: int, tickStop: int, onlyCommitted: bool)

  predicate Shown(f: Filter, x: Inst) {
    && !(f.snStart > 0 && x.sn < f.snStart)
    && !(f.snStop > 0 && x.sn > f.snStop)
    && !(f.tickStart > 0 && x.fetch < f.tickStart)
    && !(f.tickStop > 0 && x.fetch > f.tickStop)
    && !(f.onlyCommitted && x.retire == 0)
  }

  function Select(f: Filter, s: seq<Inst>): seq<Inst> {
    if s == [] then []
    else Select(f, s[..|s| - 1]) + if Shown(f, s[|s| - 1]) then [s[|s| - 1]] else []
  }

  lemma {:induction false} SelectAppends(f: Filter, a: seq<Inst>, b: seq<Inst>)
    ensures Select(f, a + b) == Select(f, a) + Select(f, b)
  {
    if b == [] {
      assert a + b == a;
    } else {
      SelectAppends(f, a, b[..|b| - 1]);
      assert (a + b)[..|a + b| - 1] == a + b[..|b| - 1];
    }
  }

  lemma {:induction false} SelectCounts(filter: Filter, s: seq<Inst>, x: Inst)
    ensures multiset(Select(filter, s))[x] == if Shown(filter, x) then multiset(s)[x] else 0
  {
    if s != [] {
      var init, last := s[..|s| - 1], s[|s| - 1];
      SelectCounts(filter, init, x);
      BagOfLast(s);
      assert Select(filter, s) == if Shown(filter, last) then Select(filter, init) + [last] else Select(filter, init);
    }
  }

  lemma {:induction false} SelectAscends(f: Filter, s: seq<Inst>)
    requires Ascending(s)
    ensures Ascending(Select(f, s)) && forall i :: 0 <= i < |Select(f, s)| ==> Select(f, s)[i] in s
  {
    if s != [] {
      var init := s[..|s| - 1];
      SelectAscends(f, init);
      forall i | 0 <= i < |Select(f, init)| ensures Select(f, init)[i].sn <= s[|s| - 1].sn {
        var j :| 0 <= j < |init| && init[j] == Select(f, init)[i];
      }
    }
  }

  datatype Stream = Stream(popped: seq<Inst>, queue: seq<Inst>)

  /** Sort, then pop from the front until no more than lower instructions are left. */
  function Drain(t: Stream, lower: nat): Stream {
    var sorted := Sort(t.queue);
    var n := if |sorted| > lower then |sorted| - lower else 0;
    Stream(t.popped + sorted[..n], sorted[n..])
  }

  lemma DrainLeaves(t: Stream, lower: nat)
    ensures |Drain(t, lower).queue| <= lower && Ascending(Drain(t, lower).queue)
  {
    SortAscends(t.queue);
  }

  function Arrive(t: Stream, x: Inst, min: nat, max: nat): Stream {
    var u := t.(queue := t.queue + [x]);
    if |u.queue| > max then Drain(u, min) else u
  }

  function Feed(s: seq<Inst>, min: nat, max: nat): Stream {
    if s == [] then Stream([], []) else Arrive(Feed(s[..|s| - 1], min, max), s[|s| - 1], min, max)
  }

  /** Everything taken off the queue by the end of the trace. */
  function Output(s: seq<Inst>, min: nat, max: nat): seq<Inst> {
    Drain(Feed(s, min, max), 0).popped
  }

  class PrintQueue {
    const min: nat
    const max: nat
    const filter: Filter
    var queue: seq<Inst>
    var printed: seq<Inst>
    ghost var arrived: seq<Inst>
    ghost var popped: seq<Inst>

    ghost predicate Valid()
      reads this
    {
      printed == Select(filter, popped) && Stream(popped, queue) == Feed(arrived, min, max)
    }

    constructor (min: nat, max: nat, filter: Filter)
      ensures Valid() && this.min == min && this.max == max && this.filter == filter && arrived == []
    {
      this.min, this.max, this.filter := min, max, filter;
      queue, printed, arrived, popped := [], [], [], [];
    }

    method PrintInsts(lower: nat)
      requires printed == Select(filter, popped)
      modifies this`queue, this`printed, this`popped
      ensures printed == Select(filter, popped)
      ensures Stream(popped, queue) == Drain(old(Stream(popped, queue)), lower)
      ensures |queue| <= lower && Ascending(queue)
    {
      DrainLeaves(Stream(popped, queue), lower);
      queue := Sort(queue);
      ghost var sorted, n := queue, 0;
      while |queue| > lower
        invariant 0 <= n <= |sorted| && queue == sorted[n..] && (n > 0 ==> |queue| >= lower)
        invariant popped == old(popped) + sorted[..n]
        invariant printed == Select(filter, popped)
      {
        var item := queue[0];
        queue := queue[1..];
        popped := popped + [item];
        n := n + 1;
        assert sorted[..n] == sorted[..n - 1] + [item];
        assert popped[..|popped| - 1] == old(popped) + sorted[..n - 1];
        if filter.snStart > 0 && item.sn < filter.snStart {
          continue;
        }
        if filter.snStop > 0 && item.sn > filter.snStop {
          continue;
        }
        if filter.tickStart > 0 && item.fetch < filter.tickStart {
          continue;
        }
        if filter.tickStop > 0 && item.fetch > filter.tickStop {
          continue;
        }
        if filter.onlyCommitted && item.retire == 0 {
          continue;
        }
        printed := printed + [item];
      }
    }

    method QueueInst(inst: Inst)
      requires Valid()
      modifies this
      ensures Valid() && arrived == old(arrived) + [inst]
    {
      queue := queue + [inst];
      if |queue| > max {
        PrintInsts(min);
      }
      arrived := arrived + [inst];
      assert arrived[..|arrived| - 1] == old(arrived);
    }

    /**
     The end of the trace: everything left is printed. By then each instruction
     has been printed as often as it arrived if the bounds and the commit test
     let it through, and not at all otherwise, in order if everything fits.
     */
    method Flush()
      requires Valid()
      modifies this`queue, this`printed, this`popped
      ensures queue == [] && printed == Select(filter, Output(arrived, min, max))
      ensures forall x :: multiset(printed)[x] ==
                if (filter.snStart <= 0 || x.sn >= filter.snStart) && (filter.snStop <= 0 || x.sn <= filter.snStop)
                && (filter.tickStart <= 0 || x.fetch >= filter.tickStart) && (filter.tickStop <= 0 || x.fetch <= filter.tickStop)
                && (!filter.onlyCommitted || x.retire != 0)
                then multiset(arrived)[x] else 0
      ensures Fits(arrived, min, max) ==> Ascending(printed)
    {
      PrintInsts(0);
      forall x {
        PrintedInTheEnd(filter, arrived, min, max, x);
      }
      if Fits(arrived, min, max) {
        PrintedInOrder(filter, arrived, min, max);
      }
    }
  }

  // ---------------------------------------------------------------- bounded reordering

  /** How many instructions of s have a larger sequence number. */
  function Larger(s: seq<Inst>, sn: int): nat {
    if s == [] then 0 else Larger(s[..|s| - 1], sn) + if s[|s| - 1].sn > sn then 1 else 0
  }

  /** How many instructions are left in the queue after k arrivals. */
  function Held(k: nat, min: nat, max: nat): nat {
    if k == 0 then 0
    else
      var h := Held(k - 1, min, max) + 1;
      if h > max && h > min then min else h
  }

  /** No instruction is overtaken by more than are queued when it arrives. */
  predicate Fits(s: seq<Inst>, min: nat, max: nat) {
    forall k :: 0 <= k < |s| ==> Larger(s[..k], s[k].sn) <= Held(k, min, max)
  }

  /** No instruction is overtaken by more than m others. */
  predicate Bounded(s: seq<Inst>, m: nat) {
    forall k :: 0 <= k < |s| ==> Larger(s[..k], s[k].sn) <= m
  }

  lemma DrainSizes(t: Stream, lower: nat)
    ensures var u := Drain(t, lower);
      && |u.queue| == (if |t.queue| > lower then lower else |t.queue|)
      && |u.popped| + |u.queue| == |t.popped| + |t.queue|
  {
    SortAscends(t.queue);
  }

  lemma {:induction false} HeldIs(s: seq<Inst>, min: nat, max: nat)
    ensures |Feed(s, min, max).queue| == Held(|s|, min, max)
    ensures |Feed(s, min, max).popped| + |Feed(s, min, max).queue| == |s|
  {
    if s != [] {
      var init, x := s[..|s| - 1], s[|s| - 1];
      HeldIs(init, min, max);
      var t := Feed(init, min, max);
      DrainSizes(t.(queue := t.queue + [x]), min);
    }
  }

  lemma {:induction false} HeldBounds(k: nat, min: nat, max: nat)
    ensures k <= min || k <= max ==> Held(k, min, max) == k
    ensures k > min ==> Held(k, min, max) >= min
    ensures k > min && max <= min ==> Held(k, min, max) == min
  {
    if k > 0 {
      HeldBounds(k - 1, min, max);
    }
  }

  lemma {:induction false} LargerInsert(x: Inst, s: seq<Inst>, sn: int)
    ensures Larger(Insert(x, s), sn) == Larger(s, sn) + if x.sn > sn then 1 else 0
  {
    if s == [] || s[|s| - 1].sn <= x.sn {
      assert (s + [x])[..|s|] == s;
    } else {
      var init := s[..|s| - 1];
      LargerInsert(x, init, sn);
      assert (Insert(x, init) + [s[|s| - 1]])[..|Insert(x, init)|] == Insert(x, init);
    }
  }

  lemma {:induction false} LargerSort(s: seq<Inst>, sn: int)
    ensures Larger(Sort(s), sn) == Larger(s, sn)
  {
    if s != [] {
      LargerSort(s[..|s| - 1], sn);
      LargerInsert(s[|s| - 1], Sort(s[..|s| - 1]), sn);
    }
  }

  /** In an ascending sequence everything from the first larger instruction on is larger. */
  lemma {:induction false} LargerSuffix(s: seq<Inst>, sn: int, n: nat)
    requires Ascending(s) && n <= |s|
    ensures n < |s| && s[n].sn > sn ==> Larger(s, sn) >= |s| - n
    ensures (n == 0 || s[n - 1].sn <= sn) ==> Larger(s, sn) <= |s| - n
  {
    if n < |s| {
      LargerSuffix(s[..|s| - 1], sn, n);
    } else if n > 0 && s[n - 1].sn <= sn {
      NoneLarger(s, sn);
    }
  }

  lemma {:induction false} NoneLarger(s: seq<Inst>, sn: int)
    requires forall i :: 0 <= i < |s| ==> s[i].sn <= sn
    ensures Larger(s, sn) == 0
  {
    if s != [] {
      NoneLarger(s[..|s| - 1], sn);
    }
  }

  lemma {:induction false} LargerAtMost(s: seq<Inst>, sn: int)
    ensures Larger(s, sn) <= |s|
  {
    if s != [] {
      LargerAtMost(s[..|s| - 1], sn);
    }
  }

  lemma {:induction false} AllLarger(s: seq<Inst>, sn: int)
    requires forall i :: 0 <= i < |s| ==> s[i].sn > sn
    ensures Larger(s, sn) == |s|
  {
    if s != [] {
      AllLarger(s[..|s| - 1], sn);
    }
  }

  // ------------------------------------------------------------- while everything fits

  /** Popped so far, then the rest of the queue in order: that is the sorted arrivals. */
  ghost predicate InOrder(t: Stream, s: seq<Inst>) {
    t.popped + Sort(t.queue) == Sort(s)
  }

  lemma CutSorted(popped: seq<Inst>, s: seq<Inst>, n: nat)
    requires Ascending(s) && n <= |s|
    ensures popped + s[..n] + Sort(s[n..]) == popped + s
  {
    SortOfSorted(s[n..]);
    assert s[..n] + s[n..] == s;
  }

  lemma DrainKeepsOrder(t: Stream, s: seq<Inst>, lower: nat)
    requires InOrder(t, s)
    ensures InOrder(Drain(t, lower), s)
  {
    SortAscends(t.queue);
    var sorted := Sort(t.queue);
    CutSorted(t.popped, sorted, if |sorted| > lower then |sorted| - lower else 0);
  }

  lemma LastIsLarger(a: seq<Inst>, b: seq<Inst>, sn: int)
    requires Ascending(a + b)
    ensures Larger(a + b, sn) > |b| <==> a != [] && a[|a| - 1].sn > sn
  {
    LargerAtMost(a + b, sn);
    if a != [] {
      assert (a + b)[|a| - 1] == a[|a| - 1];
      LargerSuffix(a + b, sn, |a| - 1);
      LargerSuffix(a + b, sn, |a|);
    }
  }

  /** Something larger was popped already exactly when more are larger than are queued. */
  lemma PoppedTooEarly(t: Stream, s: seq<Inst>, sn: int)
    requires InOrder(t, s)
    ensures Larger(s, sn) > |t.queue| <==> t.popped != [] && t.popped[|t.popped| - 1].sn > sn
  {
    SortAscends(s);
    SortAscends(t.queue);
    LargerSort(s, sn);
    LastIsLarger(t.popped, Sort(t.queue), sn);
  }

  lemma ArriveKeepsOrder(t: Stream, s: seq<Inst>, x: Inst, min: nat, max: nat)
    requires InOrder(t, s) && Larger(s, x.sn) <= |t.queue|
    ensures InOrder(Arrive(t, x, min, max), s + [x])
  {
    PoppedTooEarly(t, s, x.sn);
    var u := t.(queue := t.queue + [x]);
    assert u.queue[..|t.queue|] == t.queue && (s + [x])[..|s|] == s;
    InsertBehind(x, t.popped, Sort(t.queue));
    assert u.popped + Sort(u.queue) == Sort(s + [x]);
    if |u.queue| > max {
      DrainKeepsOrder(u, s + [x], min);
    }
  }

  lemma FitsBefore(s: seq<Inst>, k: nat, min: nat, max: nat)
    requires k <= |s| && forall j :: 0 <= j < k ==> Larger(s[..j], s[j].sn) <= Held(j, min, max)
    ensures Fits(s[..k], min, max)
  {
    forall j | 0 <= j < k ensures Larger(s[..k][..j], s[..k][j].sn) <= Held(j, min, max) {
      assert s[..k][..j] == s[..j];
    }
  }

  lemma {:induction false} FeedKeepsOrder(s: seq<Inst>, min: nat, max: nat)
    requires Fits(s, min, max)
    ensures InOrder(Feed(s, min, max), s)
  {
    if s != [] {
      var init, x := s[..|s| - 1], s[|s| - 1];
      assert init + [x] == s;
      FitsBefore(s, |init|, min, max);
      FeedKeepsOrder(init, min, max);
      HeldIs(init, min, max);
      ArriveKeepsOrder(Feed(init, min, max), init, x, min, max);
    }
  }

  // ---------------------------------------------------------------- when it is too much

  lemma {:induction false} FeedGrows(s: seq<Inst>, min: nat, max: nat, k: nat)
    requires k <= |s|
    ensures Feed(s[..k], min, max).popped <= Feed(s, min, max).popped
    decreases |s| - k
  {
    if k < |s| {
      assert s[..k + 1][..k] == s[..k];
      FeedGrows(s, min, max, k + 1);
    } else {
      assert s[..k] == s;
    }
  }

  lemma ArrivePermutes(t: Stream, x: Inst, min: nat, max: nat)
    ensures var u := Arrive(t, x, min, max);
      multiset(u.popped) + multiset(u.queue) == multiset(t.popped) + multiset(t.queue) + multiset{x}
  {
    var u := t.(queue := t.queue + [x]);
    if |u.queue| > max {
      DrainPermutes(u, min);
    }
  }

  lemma {:induction false} FeedPermutes(s: seq<Inst>, min: nat, max: nat)
    ensures multiset(Feed(s, min, max).popped) + multiset(Feed(s, min, max).queue) == multiset(s)
  {
    if s != [] {
      var init, x := s[..|s| - 1], s[|s| - 1];
      FeedPermutes(init, min, max);
      BagOfLast(s);
      ArrivePermutes(Feed(init, min, max), x, min, max);
    }
  }

  lemma DrainPermutes(t: Stream, lower: nat)
    ensures multiset(Drain(t, lower).popped) + multiset(Drain(t, lower).queue) == multiset(t.popped) + multiset(t.queue)
  {
    var sorted := Sort(t.queue);
    SortPermutes(t.queue);
    var n := if |sorted| > lower then |sorted| - lower else 0;
    assert sorted == sorted[..n] + sorted[n..];
  }

  lemma OutputPermutes(s: seq<Inst>, min: nat, max: nat)
    ensures multiset(Output(s, min, max)) == multiset(s)
    ensures Feed(s, min, max).popped <= Output(s, min, max)
  {
    FeedPermutes(s, min, max);
    DrainPermutes(Feed(s, min, max), 0);
    SortAscends(Feed(s, min, max).queue);
    assert Drain(Feed(s, min, max), 0).queue == [];
  }

  lemma FoundLater(out: seq<Inst>, popped: seq<Inst>, s: seq<Inst>, k: nat)
    requires k < |s| && popped <= out && multiset(out) == multiset(s) && multiset(popped) <= multiset(s[..k])
    ensures s[k] in out[|popped|..]
  {
    var x, tail := s[k], out[|popped|..];
    BagOfLast(s[..k + 1]);
    assert s[..k + 1][..k] == s[..k] && s == s[..k + 1] + s[k + 1..];
    assert multiset(s)[x] > multiset(popped)[x];
    assert out == popped + tail;
    assert multiset(out)[x] == multiset(popped)[x] + multiset(tail)[x];
    assert x in multiset(tail);
  }

  lemma LargerBefore(out: seq<Inst>, popped: seq<Inst>, x: Inst)
    requires popped <= out && popped != [] && popped[|popped| - 1].sn > x.sn && x in out[|popped|..]
    ensures !Ascending(out)
  {
    var j :| 0 <= j < |out| - |popped| && out[|popped|..][j] == x;
    assert out[|popped| - 1] == popped[|popped| - 1] && out[|popped| + j] == x;
  }

  lemma OutputStarts(s: seq<Inst>, k: nat, min: nat, max: nat)
    requires k <= |s|
    ensures Feed(s[..k], min, max).popped <= Output(s, min, max)
    ensures multiset(Feed(s[..k], min, max).popped) <= multiset(s[..k])
    ensures multiset(Output(s, min, max)) == multiset(s)
  {
    FeedGrows(s, min, max, k);
    OutputPermutes(s, min, max);
    FeedPermutes(s[..k], min, max);
  }

  /** Once something larger than s[k] was popped before s[k] came, the output is out of order. */
  lemma LateIsOutOfOrder(s: seq<Inst>, k: nat, min: nat, max: nat)
    requires k < |s|
    requires var popped := Feed(s[..k], min, max).popped; popped != [] && popped[|popped| - 1].sn > s[k].sn
    ensures !Ascending(Output(s, min, max))
  {
    var popped, out := Feed(s[..k], min, max).popped, Output(s, min, max);
    OutputStarts(s, k, min, max);
    FoundLater(out, popped, s, k);
    LargerBefore(out, popped, s[k]);
  }

  lemma {:induction false} FirstTooLate(s: seq<Inst>, min: nat, max: nat, n: nat) returns (k: nat)
    requires n <= |s| && !Fits(s, min, max)
    requires forall j :: 0 <= j < n ==> Larger(s[..j], s[j].sn) <= Held(j, min, max)
    ensures k < |s| && Fits(s[..k], min, max) && Larger(s[..k], s[k].sn) > Held(k, min, max)
    decreases |s| - n
  {
    if n < |s| && Larger(s[..n], s[n].sn) <= Held(n, min, max) {
      k := FirstTooLate(s, min, max, n + 1);
    } else {
      FitsBefore(s, n, min, max);
      k := n;
    }
  }

  lemma TooLate(s: seq<Inst>, k: nat, min: nat, max: nat)
    requires k < |s| && Fits(s[..k], min, max) && Larger(s[..k], s[k].sn) > Held(k, min, max)
    ensures !Ascending(Output(s, min, max))
  {
    FeedKeepsOrder(s[..k], min, max);
    HeldIs(s[..k], min, max);
    PoppedTooEarly(Feed(s[..k], min, max), s[..k], s[k].sn);
    LateIsOutOfOrder(s, k, min, max);
  }

  /**
   The viewer's output is the stable sort of all arrivals, none lost, doubled or
   out of place, exactly when no instruction is overtaken by more others than
   are queued when it arrives.
   */
  lemma ReorderExact(s: seq<Inst>, min: nat, max: nat)
    ensures Output(s, min, max) == Sort(s) <==> Fits(s, min, max)
  {
    if Fits(s, min, max) {
      FeedKeepsOrder(s, min, max);
      SortAscends(Feed(s, min, max).queue);
    } else {
      var k := FirstTooLate(s, min, max, 0);
      TooLate(s, k, min, max);
      SortAscends(s);
    }
  }

  /** What is printed in the end: all that is inside the bounds that are set, and committed if it has to be. */
  lemma PrintedInTheEnd(filter: Filter, s: seq<Inst>, min: nat, max: nat, x: Inst)
    ensures multiset(Select(filter, Output(s, min, max)))[x] ==
            if (filter.snStart <= 0 || x.sn >= filter.snStart) && (filter.snStop <= 0 || x.sn <= filter.snStop)
               && (filter.tickStart <= 0 || x.fetch >= filter.tickStart) && (filter.tickStop <= 0 || x.fetch <= filter.tickStop)
               && (!filter.onlyCommitted || x.retire != 0)
            then multiset(s)[x] else 0
  {
    OutputPermutes(s, min, max);
    SelectCounts(filter, Output(s, min, max), x);
  }

  lemma PrintedInOrder(filter: Filter, s: seq<Inst>, min: nat, max: nat)
    requires Fits(s, min, max)
    ensures Ascending(Select(filter, Output(s, min, max)))
  {
    ReorderExact(s, min, max);
    SortAscends(s);
    SelectAscends(filter, Sort(s));
  }

  // --------------------------------------------------------------- the lower threshold

  /** Disorder up to min is always absorbed, whatever max is. */
  lemma BoundedReorder(s: seq<Inst>, min: nat, max: nat)
    requires Bounded(s, min)
    ensures Output(s, min, max) == Sort(s)
  {
    forall k | 0 <= k < |s| ensures Larger(s[..k], s[k].sn) <= Held(k, min, max) {
      HeldBounds(k, min, max);
      LargerAtMost(s[..k], s[k].sn);
    }
    ReorderExact(s, min, max);
  }

  function Rising(n: nat): seq<Inst> {
    seq(n, i => Inst(i, 0, 0, ""))
  }

  function Falling(n: nat): seq<Inst> {
    seq(n, i => Inst(-i, 0, 0, ""))
  }

  /** Rising numbers, then one that m + 1 of them have overtaken. */
  function Straggler(n: nat, m: nat): seq<Inst> {
    Rising(n) + [Inst(n - m - 2, 0, 0, "")]
  }

  lemma StragglerIsOvertaken(n: nat, m: nat)
    requires m < n
    ensures Larger(Straggler(n, m)[..n], Straggler(n, m)[n].sn) == m + 1
  {
    assert Straggler(n, m)[..n] == Rising(n);
    LargerSuffix(Rising(n), n - m - 2, n - m - 1);
  }

  lemma StragglerIsBounded(n: nat, m: nat)
    requires m < n
    ensures Bounded(Straggler(n, m), m + 1)
  {
    var s := Straggler(n, m);
    forall k | 0 <= k < |s| ensures Larger(s[..k], s[k].sn) <= m + 1 {
      if k < n {
        NoneLarger(s[..k], s[k].sn);
      } else {
        StragglerIsOvertaken(n, m);
      }
    }
  }

  /** A straggler right after the queue was drained comes too late. */
  lemma StragglerIsLate(min: nat, max: nat)
    ensures var s := Straggler((if max > min then max else min) + 1, min);
      Bounded(s, min + 1) && Output(s, min, max) != Sort(s)
  {
    var n := (if max > min then max else min) + 1;
    StragglerIsBounded(n, min);
    StragglerIsOvertaken(n, min);
    HeldBounds(n - 1, min, max);
    ReorderExact(Straggler(n, min), min, max);
  }

  /** Disorder up to m is absorbed on every trace exactly when m is at most the lower threshold. */
  lemma MinIsTheGuarantee(m: nat, min: nat, max: nat)
    ensures (forall s :: Bounded(s, m) ==> Output(s, min, max) == Sort(s)) <==> m <= min
  {
    if m <= min {
      forall s | Bounded(s, m) ensures Output(s, min, max) == Sort(s) {
        BoundedReorder(s, min, max);
      }
    } else {
      StragglerIsLate(min, max);
    }
  }

  /** With the upper threshold no larger than the lower one, the bound is exact. */
  lemma ReorderBoundIsTight(s: seq<Inst>, min: nat, max: nat)
    requires max <= min
    ensures Output(s, min, max) == Sort(s) <==> Bounded(s, min)
  {
    ReorderExact(s, min, max);
    forall k | 0 <= k < |s| ensures Larger(s[..k], s[k].sn) <= Held(k, min, max) <==> Larger(s[..k], s[k].sn) <= min {
      HeldBounds(k, min, max);
      LargerAtMost(s[..k], s[k].sn);
    }
  }

  /** With any larger upper threshold more disorder than min is sometimes absorbed. */
  lemma SlackAbsorbsMore(min: nat, max: nat)
    requires max > min
    ensures var s := Falling(min + 2); !Bounded(s, min) && Output(s, min, max) == Sort(s)
  {
    var s := Falling(min + 2);
    forall k | 0 <= k < |s| ensures Larger(s[..k], s[k].sn) == k == Held(k, min, max) {
      AllLarger(s[..k], s[k].sn);
      HeldBounds(k, min, max);
    }
    assert Larger(s[..min + 1], s[min + 1].sn) > min;
    ReorderExact(s, min, max);
  }

  /** Disorder beyond min always shows exactly when the upper threshold does not exceed the lower one. */
  lemma DisorderShowsWhen(min: nat, max: nat)
    ensures (forall s :: !Bounded(s, min) ==> Output(s, min, max) != Sort(s)) <==> max <= min
  {
    if max <= min {
      forall s | !Bounded(s, min) ensures Output(s, min, max) != Sort(s) {
        ReorderBoundIsTight(s, min, max);
      }
    } else {
      SlackAbsorbsMore(min, max);
    }
  }
}
