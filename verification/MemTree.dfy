/** The cache and tester tree of the memory stress test, against its closed-form tester count. */
module MemTree {
  import opened Common

  /** A tree specification the script accepts; the first elements are next to the memory. */
  ghost predicate ValidSpec(caches: seq<nat>, testers: seq<nat>) {
    && |caches| >= 1
    && |testers| == |caches| + 1
    && testers[|caches|] != 0
    && forall i :: 0 <= i < |caches| ==> caches[i] >= 1
  }

  /** The number of subsystems that stand k steps away from the memory. */
  function Multiplier(caches: seq<nat>, k: nat): nat
    requires k <= |caches|
  {
    if k == 0 then 1 else Multiplier(caches, k - 1) * caches[k - 1]
  }

  /** The testers of the first k levels. */
  function Total(caches: seq<nat>, testers: seq<nat>, k: nat): nat
    requires k <= |testers| && k <= |caches| + 1
  {
    if k == 0 then 0 else Total(caches, testers, k - 1) + testers[k - 1] * Multiplier(caches, k - 1)
  }

  method NumTesters(caches: seq<nat>, testers: seq<nat>) returns (total: nat)
    requires |testers| == |caches| + 1
    ensures total == Total(caches, testers, |testers|)
  {
    var multiplier: seq<nat> := [1];
    for n := 0 to |caches|
      invariant |multiplier| == n + 1
      invariant forall k :: 0 <= k <= n ==> multiplier[k] == Multiplier(caches, k)
    {
      multiplier := multiplier + [multiplier[n] * caches[n]];
    }
    total := 0;
    for n := 0 to |testers|
      invariant total == Total(caches, testers, n)
    {
      total := total + testers[n] * multiplier[n];
    }
  }

  // ------------------------------------------------------------------------- the tree

  datatype Subsystem = Subsystem(level: nat, index: nat, testers: nat)

  /** The indices handed out at one level, in order of creation. */
  function IndicesAt(made: seq<Subsystem>, level: nat): seq<nat> {
    if made == [] then []
    else
      var last := made[|made| - 1];
      IndicesAt(made[..|made| - 1], level) + if last.level == level then [last.index] else []
  }

  function TestersIn(made: seq<Subsystem>): nat {
    if made == [] then 0 else TestersIn(made[..|made| - 1]) + made[|made| - 1].testers
  }

  /** Subsystems at the given level below one subsystem d levels above it, itself included when d is 0. */
  function Fan(caches: seq<nat>, from: nat, d: nat): nat
    requires from + d <= |caches|
    decreases d
  {
    if d == 0 then 1 else caches[from] * Fan(caches, from + 1, d - 1)
  }

  /** Testers in the subtree of one subsystem at the given level. */
  function SubtreeTesters(caches: seq<nat>, testers: seq<nat>, level: nat): nat
    requires level <= |caches| && |testers| == |caches| + 1
  {
    var here := testers[|caches| - level];
    if level == 0 then here else here + caches[|caches| - level] * SubtreeTesters(caches, testers, level - 1)
  }

  /** The subsystems a call makes at level l: none above its own level. */
  function Share(caches: seq<nat>, level: nat, l: nat): nat
    requires level <= |caches|
  {
    if l <= level then Fan(caches, |caches| - level, level - l) else 0
  }

  /** The counters after n calls at the given level. */
  function Grown(caches: seq<nat>, counters: seq<nat>, n: nat, level: nat): (after: seq<nat>)
    requires level <= |caches|
    ensures |after| == |counters|
  {
    seq(|counters|, l requires 0 <= l < |counters| => counters[l] + n * Share(caches, level, l))
  }

  lemma GrownByOne(caches: seq<nat>, counters: seq<nat>, n: nat, level: nat)
    requires level <= |caches|
    ensures Grown(caches, Grown(caches, counters, n, level), 1, level) == Grown(caches, counters, n + 1, level)
  {
    var (a, b) := (Grown(caches, Grown(caches, counters, n, level), 1, level), Grown(caches, counters, n + 1, level));
    forall l | 0 <= l < |counters| ensures a[l] == b[l] {
      assert (n + 1) * Share(caches, level, l) == n * Share(caches, level, l) + Share(caches, level, l);
    }
  }

  /** One subsystem and a subtree per cache make up the share of the level. */
  lemma GrownByLevel(caches: seq<nat>, counters: seq<nat>, level: nat)
    requires 0 < level <= |caches| < |counters|
    ensures Grown(caches, counters[level := counters[level] + 1], caches[|caches| - level], level - 1)
            == Grown(caches, counters, 1, level)
  {}

  lemma GrownAtTop(caches: seq<nat>, counters: seq<nat>)
    requires 0 < |counters|
    ensures Grown(caches, counters, 1, 0) == counters[0 := counters[0] + 1]
    ensures forall level :: 0 <= level <= |caches| ==> Grown(caches, counters, 0, level) == counters
  {}

  class Builder {
    const caches: seq<nat>
    const testers: seq<nat>
    var nextIndex: seq<nat>       // next free subsystem index, by level
    var made: seq<Subsystem>

    ghost predicate Valid()
      reads this
    {
      && ValidSpec(caches, testers)
      && |nextIndex| == |caches| + 1
      && forall l :: 0 <= l <= |caches| ==> IndicesAt(made, l) == UpTo(nextIndex[l])
    }

    constructor (caches: seq<nat>, testers: seq<nat>)
      requires ValidSpec(caches, testers)
      ensures Valid() && this.caches == caches && this.testers == testers && made == []
      ensures nextIndex == seq(|caches| + 1, l => 0)
    {
      this.caches, this.testers := caches, testers;
      nextIndex := seq(|caches| + 1, l => 0);
      made := [];
    }

    method Register(level: nat)
      requires Valid() && level <= |caches|
      modifies this
      ensures Valid()
      ensures nextIndex == old(nextIndex)[level := old(nextIndex[level]) + 1]
      ensures TestersIn(made) == old(TestersIn(made)) + testers[|caches| - level]
    {
      var index := nextIndex[level];
      nextIndex := nextIndex[level := index + 1];
      made := made + [Subsystem(level, index, testers[|caches| - level])];
      assert made[..|made| - 1] == old(made);
    }

    method MakeCacheLevel(ncaches: seq<nat>, prototypes: nat, level: nat, hasNextCache: bool)
      requires Valid() && level <= |caches| && ncaches == caches[|caches| - level..]
      requires prototypes == level && (level < |caches| ==> hasNextCache)
      modifies this
      ensures Valid()
      ensures TestersIn(made) == old(TestersIn(made)) + SubtreeTesters(caches, testers, level)
      ensures nextIndex == Grown(caches, old(nextIndex), 1, level)
      decreases level, 1
    {
      GrownAtTop(caches, nextIndex);
      ghost var before := nextIndex;
      Register(level);
      if level != 0 {
        assert prototypes > 0;
        MakeSubtrees(ncaches, prototypes, level);
        GrownByLevel(caches, before, level);
      } else {
        assert hasNextCache;
        assert testers[|caches|] > 0;
      }
    }

    /** One subtree behind each of the caches that fan out at this level. */
    method MakeSubtrees(ncaches: seq<nat>, prototypes: nat, level: nat)
      requires Valid() && 0 < level <= |caches| && ncaches == caches[|caches| - level..] && prototypes == level
      modifies this
      ensures Valid()
      ensures TestersIn(made) == old(TestersIn(made)) + ncaches[0] * SubtreeTesters(caches, testers, level - 1)
      ensures nextIndex == Grown(caches, old(nextIndex), ncaches[0], level - 1)
      decreases level, 0
    {
      ghost var start, count := nextIndex, TestersIn(made);
      GrownAtTop(caches, start);
      for n := 0 to ncaches[0]
        invariant Valid()
        invariant TestersIn(made) == count + n * SubtreeTesters(caches, testers, level - 1)
        invariant nextIndex == Grown(caches, start, n, level - 1)
      {
        GrownByOne(caches, start, n, level - 1);
        OneMore(n, SubtreeTesters(caches, testers, level - 1));
        MakeCacheLevel(ncaches[1..], prototypes - 1, level - 1, true);
      }
    }

    static lemma OneMore(n: nat, s: nat)
      ensures (n + 1) * s == n * s + s
    {}

    /** The whole hierarchy, from the level next to the memory. */
    method Build()
      requires Valid() && made == [] && nextIndex == seq(|caches| + 1, l => 0)
      modifies this
      ensures TestersIn(made) == Total(caches, testers, |testers|)
      ensures forall l :: 0 <= l <= |caches| ==> IndicesAt(made, l) == UpTo(Multiplier(caches, |caches| - l))
    {
      MakeCacheLevel(caches, |caches|, |caches|, false);
      TreeIsClosedForm(caches, testers, |caches|);
      forall l | 0 <= l <= |caches| ensures nextIndex[l] == Multiplier(caches, |caches| - l) {
        FanIsMultiplier(caches, 0, |caches| - l);
      }
    }
  }

  /** Counting down from level k and scaling by what stands below agrees with counting up. */
  lemma {:induction false} TreeIsClosedForm(caches: seq<nat>, testers: seq<nat>, level: nat)
    requires level <= |caches| && |testers| == |caches| + 1
    ensures Total(caches, testers, |caches| - level)
            + Multiplier(caches, |caches| - level) * SubtreeTesters(caches, testers, level)
            == Total(caches, testers, |testers|)
  {
    if level > 0 {
      TreeIsClosedForm(caches, testers, level - 1);
      var k := |caches| - level;
      Distribute(Multiplier(caches, k), testers[k], caches[k], SubtreeTesters(caches, testers, level - 1));
    }
  }

  lemma Distribute(m: nat, t: nat, c: nat, s: nat)
    ensures m * (t + c * s) == t * m + (m * c) * s
  {}

  lemma {:induction false} FanIsMultiplier(caches: seq<nat>, from: nat, d: nat)
    requires from + d <= |caches|
    ensures Multiplier(caches, from) * Fan(caches, from, d) == Multiplier(caches, from + d)
    decreases d
  {
    if d > 0 {
      FanIsMultiplier(caches, from + 1, d - 1);
      var (m, c, f) := (Multiplier(caches, from), caches[from], Fan(caches, from + 1, d - 1));
      assert m * (c * f) == (m * c) * f;
    }
  }

  // ----------------------------------------------------------------------- prototypes

  datatype Cache = Cache(size: nat, assoc: nat, mshrs: nat, latency: nat, mostlyInclusive: bool, writebackClean: bool)

  /** The level below, scaled by the number of caches it serves, with the clusivity swapped. */
  function NextLevel(prev: Cache, scale: nat): Cache {
    Cache(prev.size * scale, prev.assoc * scale, prev.mshrs * scale, prev.latency * 10,
          !prev.mostlyInclusive, !prev.writebackClean)
  }

  /** The prototypes from the memory up: one per level, all with the sets of the L1, clusivity alternating. */
  method Prototypes(l1: Cache, caches: seq<nat>) returns (protos: seq<Cache>)
    requires caches != []
    ensures |protos| == |caches| && protos[|caches| - 1] == l1
    ensures forall i :: 0 <= i < |protos| ==>
              var m := Multiplier(caches, |caches| - 1 - i);
              protos[i].size == l1.size * m && protos[i].assoc == l1.assoc * m && protos[i].mshrs == l1.mshrs * m
    ensures forall i :: 0 <= i < |protos| - 1 ==>
              && protos[i].latency == 10 * protos[i + 1].latency
              && protos[i].mostlyInclusive != protos[i + 1].mostlyInclusive
              && protos[i].writebackClean != protos[i + 1].writebackClean
  {
    protos := [l1];
    for n := 0 to |caches| - 1
      invariant |protos| == n + 1 && protos[n] == l1
      invariant forall i :: 0 <= i <= n ==> Scaled(protos[i], l1, Multiplier(caches, n - i))
      invariant forall i :: 0 <= i < n ==>
                  && protos[i].latency == 10 * protos[i + 1].latency
                  && protos[i].mostlyInclusive != protos[i + 1].mostlyInclusive
                  && protos[i].writebackClean != protos[i + 1].writebackClean
    {
      ScaledFurther(protos[0], l1, Multiplier(caches, n), caches[n]);
      var longer := [NextLevel(protos[0], caches[n])] + protos;
      forall i | 0 <= i <= n + 1 ensures Scaled(longer[i], l1, Multiplier(caches, n + 1 - i)) {
        if i > 0 {
          assert longer[i] == protos[i - 1];
        }
      }
      protos := longer;
    }
  }

  predicate Scaled(c: Cache, l1: Cache, m: nat) {
    c.size == l1.size * m && c.assoc == l1.assoc * m && c.mshrs == l1.mshrs * m
  }

  lemma ScaledFurther(c: Cache, l1: Cache, m: nat, scale: nat)
    requires Scaled(c, l1, m)
    ensures Scaled(NextLevel(c, scale), l1, m * scale)
  {
    assert forall x: nat :: (x * m) * scale == x * (m * scale);
  }
}
