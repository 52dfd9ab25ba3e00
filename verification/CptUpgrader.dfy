/** Resolving the dependencies between checkpoint upgraders and applying them in order. */
module CptUpgrader {
  import opened Common

  type Tag = string

  /** An upgrader script: the tags it depends on, and the tags that depend on it. */
  datatype Script = Script(depends: set<Tag>, fwdDepends: seq<Tag>)

  /** Every tag named by some script exists. */
  ghost predicate Known(scripts: map<Tag, Script>) {
    forall t :: t in scripts ==> KnownTo(scripts, t)
  }

  ghost predicate KnownTo(scripts: map<Tag, Script>, t: Tag)
    requires t in scripts
  {
    && scripts[t].depends <= scripts.Keys
    && forall n :: 0 <= n < |scripts[t].fwdDepends| ==> scripts[t].fwdDepends[n] in scripts
  }

  lemma KnownMeans(scripts: map<Tag, Script>)
    ensures Known(scripts) <==>
              && (forall t, u :: t in scripts && u in scripts[t].depends ==> u in scripts)
              && (forall t, u :: t in scripts && u in scripts[t].fwdDepends ==> u in scripts)
  {
    forall t | t in scripts
      ensures KnownTo(scripts, t) <==> scripts[t].depends <= scripts.Keys && forall u :: u in scripts[t].fwdDepends ==> u in scripts
    {
    }
  }

  /** Tag t depends on u, once the forward dependencies of the scripts in done have been turned around. */
  ghost predicate DependsOn(scripts: map<Tag, Script>, done: set<Tag>, t: Tag, u: Tag)
    requires t in scripts
  {
    u in scripts[t].depends || (u in done && u in scripts && t in scripts[u].fwdDepends)
  }

  /** Forward dependencies become dependencies of the other side, then every dependency is checked to exist. */
  method LoadAll(scripts: map<Tag, Script>) returns (r: Option<map<Tag, set<Tag>>>)
    ensures r.Some? <==>
              && (forall t, u :: t in scripts && u in scripts[t].depends ==> u in scripts)
              && (forall t, u :: t in scripts && u in scripts[t].fwdDepends ==> u in scripts)
    ensures r.Some? ==> AreResolved(scripts, scripts.Keys, r.value)
    ensures r.Some? ==> forall t :: t in scripts ==> r.value[t] <= scripts.Keys
  {
    var deps := map t | t in scripts :: scripts[t].depends;
    var todo := scripts.Keys;
    ghost var done: set<Tag> := {};
    NothingResolved(scripts, deps);
    KnownMeans(scripts);
    while todo != {}
      invariant scripts.Keys == todo + done
      invariant AreResolved(scripts, done, deps)
      invariant forall t :: t in done ==> KnownTo(scripts, t)
      decreases todo
    {
      var tag :| tag in todo;
      var ok;
      ok, deps := LoadOne(scripts, tag, deps, done);
      if !ok {
        return None;
      }
      todo := todo - {tag};
      done := done + {tag};
    }
    assert done == scripts.Keys;
    ResolvedKnown(scripts, scripts.Keys, deps);
    return Some(deps);
  }

  /** The forward dependencies of one script, then the check of its dependencies. */
  method LoadOne(scripts: map<Tag, Script>, tag: Tag, deps: map<Tag, set<Tag>>, ghost done: set<Tag>)
    returns (ok: bool, after: map<Tag, set<Tag>>)
    requires tag in scripts && AreResolved(scripts, done, deps)
    ensures ok <==> KnownTo(scripts, tag)
    ensures ok ==> AreResolved(scripts, done + {tag}, after)
  {
    ok, after := TurnAround(scripts, tag, deps);
    if ok {
      ResolvedStep(scripts, done, tag, deps, after);
      ok := after[tag] <= scripts.Keys;
    }
  }

  ghost predicate AreResolved(scripts: map<Tag, Script>, done: set<Tag>, deps: map<Tag, set<Tag>>) {
    deps.Keys == scripts.Keys && forall t, u :: t in scripts ==> (u in deps[t] <==> DependsOn(scripts, done, t, u))
  }

  lemma ResolvedStep(scripts: map<Tag, Script>, done: set<Tag>, tag: Tag, deps: map<Tag, set<Tag>>, after: map<Tag, set<Tag>>)
    requires tag in scripts && AreResolved(scripts, done, deps) && after.Keys == scripts.Keys
    requires forall t :: t in scripts ==> after[t] == deps[t] + if t in scripts[tag].fwdDepends then {tag} else {}
    ensures AreResolved(scripts, done + {tag}, after)
  {}

  lemma NothingResolved(scripts: map<Tag, Script>, deps: map<Tag, set<Tag>>)
    requires deps == map t | t in scripts :: scripts[t].depends
    ensures AreResolved(scripts, {}, deps)
  {}

  lemma ResolvedKnown(scripts: map<Tag, Script>, done: set<Tag>, deps: map<Tag, set<Tag>>)
    requires AreResolved(scripts, done, deps) && Known(scripts)
    ensures forall t :: t in scripts ==> deps[t] <= scripts.Keys
  {}

  /** The forward dependencies of one script. */
  method TurnAround(scripts: map<Tag, Script>, tag: Tag, deps: map<Tag, set<Tag>>) returns (ok: bool, after: map<Tag, set<Tag>>)
    requires tag in scripts && deps.Keys == scripts.Keys
    ensures ok <==> forall n :: 0 <= n < |scripts[tag].fwdDepends| ==> scripts[tag].fwdDepends[n] in scripts
    ensures after.Keys == scripts.Keys
    ensures ok ==> forall t :: t in scripts ==> after[t] == deps[t] + if t in scripts[tag].fwdDepends then {tag} else {}
  {
    var fwd := scripts[tag].fwdDepends;
    after := deps;
    for n := 0 to |fwd|
      invariant forall m :: 0 <= m < n ==> fwd[m] in scripts
      invariant after.Keys == scripts.Keys
      invariant forall t :: t in scripts ==> after[t] == deps[t] + if t in fwd[..n] then {tag} else {}
    {
      if fwd[n] !in scripts {
        return false, after;
      }
      assert fwd[..n + 1] == fwd[..n] + [fwd[n]];
      after := after[fwd[n] := after[fwd[n]] + {tag}];
    }
    assert fwd[..|fwd|] == fwd;
    ok := true;
  }

  // ----------------------------------------------------------------------- applying

  /** A run of upgrades from the given tags: each new, and each after everything it depends on. */
  ghost predicate IsSchedule(deps: map<Tag, set<Tag>>, tags: set<Tag>, log: seq<Tag>) {
    forall n :: 0 <= n < |log| ==>
      && log[n] in deps
      && log[n] !in tags && log[n] !in log[..n]
      && deps[log[n]] <= tags + Elements(log[..n])
  }

  /** Each tag of c depends on the next, and the last on the first. */
  ghost predicate IsCycle(deps: map<Tag, set<Tag>>, within: set<Tag>, c: seq<Tag>) {
    && c != []
    && (forall n :: 0 <= n < |c| ==> c[n] in within && c[n] in deps)
    && (forall n :: 0 <= n < |c| - 1 ==> c[n + 1] in deps[c[n]])
    && c[0] in deps[c[|c| - 1]]
  }

  ghost predicate HasCycle(deps: map<Tag, set<Tag>>, within: set<Tag>) {
    exists c :: IsCycle(deps, within, c)
  }

  method ApplyReady(deps: map<Tag, set<Tag>>, ready: set<Tag>, tags: set<Tag>, log: seq<Tag>, ghost start: set<Tag>)
    returns (tags': set<Tag>, log': seq<Tag>)
    requires tags == start + Elements(log) && IsSchedule(deps, start, log)
    requires forall t :: t in ready ==> t in deps && t !in tags && deps[t] <= tags
    ensures tags' == tags + ready == start + Elements(log') && IsSchedule(deps, start, log')
  {
    tags', log' := tags, log;
    var left := ready;
    while left != {}
      invariant left <= ready && tags' == tags + (ready - left) == start + Elements(log')
      invariant IsSchedule(deps, start, log')
      decreases left
    {
      var tag :| tag in left;
      ExtendSchedule(deps, start, log', tag);
      tags', log' := tags' + {tag}, log' + [tag];
      left := left - {tag};
    }
  }

  lemma ExtendSchedule(deps: map<Tag, set<Tag>>, start: set<Tag>, log: seq<Tag>, tag: Tag)
    requires IsSchedule(deps, start, log)
    requires tag in deps && tag !in start + Elements(log) && deps[tag] <= start + Elements(log)
    ensures IsSchedule(deps, start, log + [tag])
    ensures Elements(log + [tag]) == Elements(log) + {tag}
  {
    var log' := log + [tag];
    forall n | 0 <= n < |log'|
      ensures log'[n] in deps && log'[n] !in start && log'[n] !in log'[..n] && deps[log'[n]] <= start + Elements(log'[..n])
    {
      assert log'[..n] == log[..n];
      assert log[..|log|] == log;
      if n == |log| {
        assert tag !in log;
      }
    }
    assert tag == log'[|log|];
    forall t | t in Elements(log) + {tag} ensures t in Elements(log') {
      if t in Elements(log) {
        var n :| 0 <= n < |log| && log[n] == t;
        assert log'[n] == t;
      }
    }
  }

  /**
   The upgrade loop. It ends with every missing tag applied exactly once and
   in dependency order, or gives up exactly when the missing tags contain a
   dependency cycle.
   */
  method Upgrade(deps: map<Tag, set<Tag>>, start: set<Tag>) returns (ok: bool, tags: set<Tag>, log: seq<Tag>)
    requires forall t :: t in deps ==> deps[t] <= deps.Keys
    ensures IsSchedule(deps, start, log) && tags == start + Elements(log)
    ensures ok ==> tags == start + deps.Keys
    ensures ok <==> !HasCycle(deps, deps.Keys - start)
  {
    tags, log := start, [];
    var toApply := deps.Keys - tags;
    while toApply != {}
      invariant toApply == deps.Keys - tags
      invariant IsSchedule(deps, start, log) && tags == start + Elements(log)
      decreases toApply
    {
      var ready := set t | t in toApply && deps[t] <= tags;
      if ready == {} {
        forall t | t in toApply ensures deps[t] * toApply != {} {
          assert t !in ready;
          var d :| d in deps[t] && d !in tags;
          assert d in deps[t] * toApply;
        }
        StuckMeansCycle(deps, toApply);
        assert HasCycle(deps, deps.Keys - start) by {
          var c :| IsCycle(deps, toApply, c);
          assert IsCycle(deps, deps.Keys - start, c);
        }
        return false, tags, log;
      }
      tags, log := ApplyReady(deps, ready, tags, log, start);
      toApply := toApply - ready;
    }
    assert forall t :: t in deps ==> t !in toApply;
    NoCycleScheduled(deps, start, log);
    ok := true;
  }

  // ----------------------------------------------------------- stuck means a cycle

  ghost predicate IsWalk(deps: map<Tag, set<Tag>>, within: set<Tag>, w: seq<Tag>) {
    && (forall n :: 0 <= n < |w| ==> w[n] in within && w[n] in deps)
    && (forall n :: 0 <= n < |w| - 1 ==> w[n + 1] in deps[w[n]])
  }

  lemma {:induction false} LongWalk(deps: map<Tag, set<Tag>>, within: set<Tag>, n: nat) returns (w: seq<Tag>)
    requires within != {} && forall t :: t in within ==> t in deps && deps[t] * within != {}
    ensures |w| == n + 1 && IsWalk(deps, within, w)
  {
    if n == 0 {
      var t :| t in within;
      w := [t];
    } else {
      var v := LongWalk(deps, within, n - 1);
      var t :| t in deps[v[n - 1]] * within;
      w := v + [t];
    }
  }

  lemma {:induction false} Pigeonhole(s: set<Tag>, w: seq<Tag>) returns (i: nat, j: nat)
    requires |w| > |s| && forall n :: 0 <= n < |w| ==> w[n] in s
    ensures i < j < |w| && w[i] == w[j]
  {
    var last := |w| - 1;
    assert w[last] in s;
    if k :| 0 <= k < last && w[k] == w[last] {
      i, j := k, last;
    } else {
      i, j := Pigeonhole(s - {w[last]}, w[..last]);
    }
  }

  lemma StuckMeansCycle(deps: map<Tag, set<Tag>>, stuck: set<Tag>)
    requires stuck != {} && forall t :: t in stuck ==> t in deps && deps[t] * stuck != {}
    ensures HasCycle(deps, stuck)
  {
    var w := LongWalk(deps, stuck, |stuck|);
    var i, j := Pigeonhole(stuck, w);
    var c := w[i..j];
    forall n | 0 <= n < |c| - 1 ensures c[n + 1] in deps[c[n]] {
      assert w[i + n + 1] in deps[w[i + n]];
    }
    assert w[j - 1 + 1] in deps[w[j - 1]];
    assert IsCycle(deps, stuck, c);
  }

  // ------------------------------------------------- a full schedule excludes cycles

  ghost function Position(log: seq<Tag>, t: Tag): nat
    requires t in log
  {
    var n :| 0 <= n < |log| && log[n] == t; n
  }

  /** A dependency that was missing at the start is applied earlier. */
  lemma DependencyIsEarlier(deps: map<Tag, set<Tag>>, start: set<Tag>, log: seq<Tag>, t: Tag, dep: Tag)
    requires IsSchedule(deps, start, log) && t in log && t in deps && dep in deps[t] && dep !in start && dep in log
    ensures Position(log, dep) < Position(log, t)
  {
    var p, q := Position(log, t), Position(log, dep);
    assert dep in Elements(log[..p]);
    var n :| 0 <= n < p && log[..p][n] == dep;
    assert log[n] == dep;
  }

  lemma {:induction false} CycleDescends(deps: map<Tag, set<Tag>>, start: set<Tag>, log: seq<Tag>, c: seq<Tag>, n: nat)
    requires IsSchedule(deps, start, log) && IsCycle(deps, deps.Keys - start, c) && n < |c|
    requires forall m :: 0 <= m < |c| ==> c[m] in log
    ensures Position(log, c[n]) + n <= Position(log, c[0])
  {
    if n > 0 {
      CycleDescends(deps, start, log, c, n - 1);
      DependencyIsEarlier(deps, start, log, c[n - 1], c[n]);
    }
  }

  lemma NoCycleScheduled(deps: map<Tag, set<Tag>>, start: set<Tag>, log: seq<Tag>)
    requires IsSchedule(deps, start, log) && deps.Keys <= start + Elements(log)
    ensures !HasCycle(deps, deps.Keys - start)
  {
    if HasCycle(deps, deps.Keys - start) {
      var c :| IsCycle(deps, deps.Keys - start, c);
      forall m | 0 <= m < |c| ensures c[m] in log {
        assert c[m] in Elements(log);
      }
      CycleDescends(deps, start, log, c, |c| - 1);
      DependencyIsEarlier(deps, start, log, c[|c| - 1], c[0]);
    }
  }
}
