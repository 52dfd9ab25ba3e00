/**
 Binding the ports of a configuration. A vector port hands out its slots in
 order, so a link can be bound only when both its ends are next in line; every
 link is listed in both directions and tried in both.
 */
module PortBinding {
  import opened Common

  type Key = (string, string)

  datatype Slot = Slot(objectName: string, portName: string, index: nat) {
    function Port(): Key {
      (objectName, portName)
    }
  }

  datatype Link = Link(from: Slot, to: Slot) {
    function Swap(): Link {
      Link(to, from)
    }
  }

  datatype Binding = Binding(counts: map<Key, nat>, made: seq<Link>)

  datatype Outcome = Bound(links: seq<Link>) | CannotOrder | MissingKey

  function Ports(links: seq<Link>): map<Key, nat> {
    map n | 0 <= n < |links| :: links[n].from.Port() := 0
  }

  predicate IsNext(counts: map<Key, nat>, s: Slot) {
    s.Port() in counts && counts[s.Port()] == s.index
  }

  function Bump(counts: map<Key, nat>, k: Key): map<Key, nat> {
    if k in counts then counts[k := counts[k] + 1] else counts
  }

  function Try(b: Binding, l: Link): Binding {
    if IsNext(b.counts, l.from) && IsNext(b.counts, l.to)
    then Binding(Bump(Bump(b.counts, l.from.Port()), l.to.Port()), b.made + [l])
    else b
  }

  function Walk(b: Binding, order: seq<Link>): Binding {
    if order == [] then b else Try(Walk(b, order[..|order| - 1]), order[|order| - 1])
  }

  /** Every link is listed both ways. */
  ghost predicate Closed(links: seq<Link>) {
    forall l :: l in links ==> l.Swap() in links
  }

  // The order of a list of links: by object name, port name and index of both ends.

  predicate Before(a: string, b: string) {
    if a == [] || b == [] then a == [] && b != []
    else a[0] < b[0] || (a[0] == b[0] && Before(a[1..], b[1..]))
  }

  lemma {:induction false} BeforeIsTotal(a: string, b: string)
    ensures Before(a, b) || a == b || Before(b, a)
  {
    if a != [] && b != [] && a[0] == b[0] {
      BeforeIsTotal(a[1..], b[1..]);
      assert a == [a[0]] + a[1..] && b == [b[0]] + b[1..];
    }
  }

  lemma {:induction false} BeforeIsTransitive(a: string, b: string, c: string)
    requires Before(a, b) && Before(b, c)
    ensures Before(a, c)
  {
    if a != [] && a[0] == b[0] == c[0] {
      BeforeIsTransitive(a[1..], b[1..], c[1..]);
    }
  }

  predicate SlotBefore(s: Slot, t: Slot) {
    || Before(s.objectName, t.objectName)
    || (s.objectName == t.objectName && Before(s.portName, t.portName))
    || (s.objectName == t.objectName && s.portName == t.portName && s.index < t.index)
  }

  lemma SlotBeforeIsOrder(s: Slot, t: Slot, u: Slot)
    ensures SlotBefore(s, t) || s == t || SlotBefore(t, s)
    ensures SlotBefore(s, t) && SlotBefore(t, u) ==> SlotBefore(s, u)
  {
    BeforeIsTotal(s.objectName, t.objectName);
    BeforeIsTotal(s.portName, t.portName);
    if Before(s.objectName, t.objectName) && Before(t.objectName, u.objectName) {
      BeforeIsTransitive(s.objectName, t.objectName, u.objectName);
    }
    if Before(s.portName, t.portName) && Before(t.portName, u.portName) {
      BeforeIsTransitive(s.portName, t.portName, u.portName);
    }
  }

  predicate AtMost(l: Link, m: Link) {
    l == m || SlotBefore(l.from, m.from) || (l.from == m.from && SlotBefore(l.to, m.to))
  }

  lemma AtMostIsOrder(l: Link, m: Link, n: Link)
    ensures AtMost(l, m) || AtMost(m, l)
    ensures AtMost(l, m) && AtMost(m, n) ==> AtMost(l, n)
  {
    SlotBeforeIsOrder(l.from, m.from, n.from);
    SlotBeforeIsOrder(l.to, m.to, n.to);
  }

  function InsertLink(l: Link, s: seq<Link>): seq<Link> {
    if s == [] || AtMost(s[|s| - 1], l) then s + [l] else InsertLink(l, s[..|s| - 1]) + [s[|s| - 1]]
  }

  function SortLinks(s: seq<Link>): seq<Link> {
    if s == [] then [] else InsertLink(s[|s| - 1], SortLinks(s[..|s| - 1]))
  }

  predicate Ascending(s: seq<Link>) {
    forall i, j :: 0 <= i < j < |s| ==> AtMost(s[i], s[j])
  }

  lemma {:induction false} InsertLinkSorts(l: Link, s: seq<Link>)
    requires Ascending(s)
    ensures Ascending(InsertLink(l, s))
    ensures forall i :: 0 <= i < |InsertLink(l, s)| ==> InsertLink(l, s)[i] == l || InsertLink(l, s)[i] in s
  {
    if s == [] {
    } else if AtMost(s[|s| - 1], l) {
      forall i | 0 <= i < |s| ensures AtMost(s[i], l) {
        AtMostIsOrder(s[i], s[|s| - 1], l);
      }
    } else {
      InsertLinkSorts(l, s[..|s| - 1]);
      AtMostIsOrder(s[|s| - 1], l, l);
    }
  }

  lemma {:induction false} InsertLinkPermutes(l: Link, s: seq<Link>)
    ensures multiset(InsertLink(l, s)) == multiset(s) + multiset{l}
  {
    if !(s == [] || AtMost(s[|s| - 1], l)) {
      InsertLinkPermutes(l, s[..|s| - 1]);
      assert s == s[..|s| - 1] + [s[|s| - 1]];
    }
  }

  /** The sort the pass starts with. */
  lemma {:induction false} SortLinksSorts(s: seq<Link>)
    ensures Ascending(SortLinks(s)) && multiset(SortLinks(s)) == multiset(s)
  {
    if s != [] {
      var init, l := s[..|s| - 1], s[|s| - 1];
      SortLinksSorts(init);
      InsertLinkSorts(l, SortLinks(init));
      InsertLinkPermutes(l, SortLinks(init));
      assert s == init + [l];
    }
  }

  /** One name comes before another if it is smaller at the first character they differ in, or a prefix of it. */
  predicate Smaller(a: string, b: string, n: nat) {
    n <= |a| && n < |b| && a[..n] == b[..n] && (n == |a| || a[n] < b[n])
  }

  lemma {:induction false} SmallerIsBefore(a: string, b: string, n: nat)
    requires Smaller(a, b, n)
    ensures Before(a, b) && !Before(b, a) && a != b
  {
    if n > 0 {
      assert a[0] == a[..n][0] && b[0] == b[..n][0];
      assert a[1..][..n - 1] == a[..n][1..] && b[1..][..n - 1] == b[..n][1..];
      SmallerIsBefore(a[1..], b[1..], n - 1);
    }
  }

  /** Ports are ordered by object name, then by port name, then by index. */
  lemma SlotOrder(s: Slot, t: Slot, n: nat)
    requires || Smaller(s.objectName, t.objectName, n)
             || (s.objectName == t.objectName && Smaller(s.portName, t.portName, n))
             || (s.objectName == t.objectName && s.portName == t.portName && s.index < t.index)
    ensures SlotBefore(s, t) && !SlotBefore(t, s) && s != t
  {
    if Smaller(s.objectName, t.objectName, n) {
      SmallerIsBefore(s.objectName, t.objectName, n);
    } else if s.objectName == t.objectName && Smaller(s.portName, t.portName, n) {
      SmallerIsBefore(s.portName, t.portName, n);
      NeverBeforeItself(s.objectName);
    } else {
      NeverBeforeItself(s.objectName);
      NeverBeforeItself(s.portName);
    }
  }

  lemma {:induction false} NeverBeforeItself(a: string)
    ensures !Before(a, a)
  {
    if a != [] {
      NeverBeforeItself(a[1..]);
    }
  }

  /** Links stand in the sorted list in the order of their first ends. */
  lemma SortedByFirstEnd(links: seq<Link>, i: nat, j: nat, n: nat)
    requires i < |SortLinks(links)| && j < |SortLinks(links)|
    requires var (s, t) := (SortLinks(links)[i].from, SortLinks(links)[j].from);
      || Smaller(s.objectName, t.objectName, n)
      || (s.objectName == t.objectName && Smaller(s.portName, t.portName, n))
      || (s.objectName == t.objectName && s.portName == t.portName && s.index < t.index)
    ensures i < j
  {
    var (l, m) := (SortLinks(links)[i], SortLinks(links)[j]);
    SlotOrder(l.from, m.from, n);
    StandsBefore(links, i, j);
  }

  lemma StandsBefore(links: seq<Link>, i: nat, j: nat)
    requires i < |SortLinks(links)| && j < |SortLinks(links)| && !AtMost(SortLinks(links)[j], SortLinks(links)[i])
    ensures i < j
  {
    SortLinksSorts(links);
    AtMostIsOrder(SortLinks(links)[i], SortLinks(links)[i], SortLinks(links)[i]);
  }

  /** Links with the same first end stand in the order of their second ends. */
  lemma SortedBySecondEnd(links: seq<Link>, i: nat, j: nat, n: nat)
    requires i < |SortLinks(links)| && j < |SortLinks(links)| && SortLinks(links)[i].from == SortLinks(links)[j].from
    requires var (s, t) := (SortLinks(links)[i].to, SortLinks(links)[j].to);
      || Smaller(s.objectName, t.objectName, n)
      || (s.objectName == t.objectName && Smaller(s.portName, t.portName, n))
      || (s.objectName == t.objectName && s.portName == t.portName && s.index < t.index)
    ensures i < j
  {
    var (l, m) := (SortLinks(links)[i], SortLinks(links)[j]);
    SlotOrder(l.to, m.to, n);
    SlotNotBothWays(l.from, l.from);
    StandsBefore(links, i, j);
  }

  /** The links made when the sorted list is gone through. */
  function Made(connections: seq<Link>): seq<Link> {
    Walk(Binding(Ports(connections), []), SortLinks(connections)).made
  }

  /** Link n of the order is tried while its second port is nowhere the first end of a listed link. */
  predicate Strays(start: map<Key, nat>, order: seq<Link>, n: nat)
    requires n < |order|
  {
    IsNext(Walk(Binding(start, []), order[..n]).counts, order[n].from) && order[n].to.Port() !in start
  }

  /** A link listed alone, without its reversal, is a missing key exactly when its first end is slot 0. */
  lemma LoneLinkStrays(l: Link)
    requires l.from.Port() != l.to.Port()
    ensures Strays(Ports([l]), [l], 0) <==> l.from.index == 0
  {
    assert [l][..0] == [];
    assert [l][0].from.Port() in Ports([l]);
    assert Ports([l]).Keys == {l.from.Port()};
  }

  /** The binding pass. A port that is nowhere the first end of a listed link is a missing key. */
  method BindPorts(connections: seq<Link>) returns (r: Outcome)
    ensures r.MissingKey? <==>
              exists n :: 0 <= n < |SortLinks(connections)| && Strays(Ports(connections), SortLinks(connections), n)
    ensures r.MissingKey? ==> !Closed(connections)
    ensures !r.MissingKey? ==>
              r == if 2 * |Made(connections)| == |connections| then Bound(Made(connections)) else CannotOrder
  {
    var order := SortLinks(connections);
    SortLinksSorts(connections);
    var counts := CountPorts(connections);
    var done, made := BindAll(connections, order, counts);
    if !done {
      return MissingKey;
    }
    if 2 * |made| != |connections| {
      return CannotOrder;
    }
    return Bound(made);
  }

  method CountPorts(connections: seq<Link>) returns (counts: map<Key, nat>)
    ensures counts == Ports(connections)
  {
    counts := map[];
    for n := 0 to |connections|
      invariant counts == Ports(connections[..n])
    {
      PortsGrow(connections, n);
      counts := counts[connections[n].from.Port() := 0];
    }
    assert connections[..|connections|] == connections;
  }

  lemma PortsGrow(links: seq<Link>, n: nat)
    requires n < |links|
    ensures Ports(links[..n + 1]) == Ports(links[..n])[links[n].from.Port() := 0]
  {
    assert links[..n + 1] == links[..n] + [links[n]];
  }

  lemma PortsOf(links: seq<Link>, l: Link)
    requires l in links
    ensures l.from.Port() in Ports(links)
    ensures Closed(links) ==> l.to.Port() in Ports(links)
  {
    if Closed(links) {
      assert l.Swap() in links;
    }
  }

  lemma WalkStep(b: Binding, order: seq<Link>, n: nat)
    requires n < |order|
    ensures Walk(b, order[..n + 1]) == Try(Walk(b, order[..n]), order[n])
  {
    assert order[..n + 1][..n] == order[..n];
  }

  /** Step through the list and bind what can be bound; false when a port is not known. */
  method BindAll(connections: seq<Link>, order: seq<Link>, start: map<Key, nat>) returns (done: bool, made: seq<Link>)
    requires start == Ports(connections) && multiset(order) == multiset(connections)
    ensures done <==> forall n :: 0 <= n < |order| ==> !Strays(start, order, n)
    ensures !done ==> !Closed(connections)
    ensures done ==> made == Walk(Binding(start, []), order).made
  {
    var counts := start;
    made := [];
    SameMembers(order, connections);
    for n := 0 to |order|
      invariant Binding(counts, made) == Walk(Binding(start, []), order[..n])
      invariant counts.Keys == start.Keys
      invariant forall m :: 0 <= m < n ==> !Strays(start, order, m)
    {
      var l := order[n];
      WalkStep(Binding(start, []), order, n);
      assert l in connections;
      PortsOf(connections, l);
      if counts[l.from.Port()] == l.from.index {
        if l.to.Port() !in counts {
          assert Strays(start, order, n);
          return false, made;
        }
        if counts[l.to.Port()] == l.to.index {
          made := made + [l];
          counts := counts[l.from.Port() := counts[l.from.Port()] + 1];
          counts := counts[l.to.Port() := counts[l.to.Port()] + 1];
        }
      }
    }
    assert order[..|order|] == order;
    done := true;
  }

  // ------------------------------------------------------------------------ soundness

  /** The slots of one port, in the order the made links bind them. */
  function Bindings(made: seq<Link>, k: Key): seq<nat> {
    if made == [] then []
    else
      var l := made[|made| - 1];
      Bindings(made[..|made| - 1], k)
        + (if l.from.Port() == k then [l.from.index] else [])
        + (if l.to.Port() == k then [l.to.index] else [])
  }

  predicate Passed(counts: map<Key, nat>, s: Slot) {
    s.Port() in counts && counts[s.Port()] > s.index
  }

  /** The counters say how far each port is bound, and bound links are behind them. */
  ghost predicate Consistent(b: Binding) {
    && (forall k :: k in b.counts ==> Bindings(b.made, k) == UpTo(b.counts[k]))
    && AllPassed(b)
    && NoneTwice(b.made)
  }

  lemma TryBindsNext(b: Binding, l: Link, k: Key)
    requires k in b.counts && Bindings(b.made, k) == UpTo(b.counts[k]) && l.from.Port() != l.to.Port()
    ensures k in Try(b, l).counts && Bindings(Try(b, l).made, k) == UpTo(Try(b, l).counts[k])
  {
    if Try(b, l) != b {
      assert Try(b, l).made[..|b.made|] == b.made;
    }
  }

  ghost predicate AllPassed(b: Binding) {
    forall n :: 0 <= n < |b.made| ==> Passed(b.counts, b.made[n].from) && Passed(b.counts, b.made[n].to)
  }

  lemma TryPasses(b: Binding, l: Link)
    requires AllPassed(b)
    ensures AllPassed(Try(b, l))
  {}

  /** A link that can be bound now was not bound before, in neither direction. */
  lemma TryBindsNewLink(b: Binding, l: Link)
    requires AllPassed(b) && IsNext(b.counts, l.from)
    ensures forall n :: 0 <= n < |b.made| ==> b.made[n] != l && b.made[n] != l.Swap()
  {}

  lemma TryKeepsConsistent(b: Binding, l: Link)
    requires Consistent(b) && l.from != l.to
    ensures Consistent(Try(b, l))
  {
    var c := Try(b, l);
    TryPasses(b, l);
    if c != b {
      TryBindsNewLink(b, l);
      assert l.from.Port() != l.to.Port();
      forall k | k in c.counts ensures Bindings(c.made, k) == UpTo(c.counts[k]) {
        TryBindsNext(b, l, k);
      }
    }
  }

  lemma {:induction false} WalkIsConsistent(counts: map<Key, nat>, order: seq<Link>)
    requires forall k :: k in counts ==> counts[k] == 0
    requires forall n :: 0 <= n < |order| ==> order[n].from != order[n].to
    ensures Consistent(Walk(Binding(counts, []), order))
    ensures forall l :: l in Walk(Binding(counts, []), order).made ==> l in order
  {
    if order != [] {
      var init := order[..|order| - 1];
      WalkIsConsistent(counts, init);
      TryKeepsConsistent(Walk(Binding(counts, []), init), order[|order| - 1]);
    }
  }

  // Counting: links bound, and their reversals, fill the whole list.

  ghost predicate Distinct(s: seq<Link>) {
    forall i, j :: 0 <= i < j < |s| ==> s[i] != s[j]
  }

  /** The list is well formed: both directions, nothing twice, no slot linked to itself. */
  ghost predicate WellFormed(connections: seq<Link>) {
    Distinct(connections) && Closed(connections) && forall l :: l in connections ==> l.from != l.to
  }

  lemma {:induction false} MembersCount(s: seq<Link>)
    requires Distinct(s)
    ensures |Elements(s)| == |s|
  {
    if s != [] {
      var init, x := s[..|s| - 1], s[|s| - 1];
      MembersCount(init);
      assert Elements(s) == Elements(init) + {x};
      assert x !in Elements(init);
    }
  }

  function Swapped(s: seq<Link>): (t: seq<Link>)
    ensures |t| == |s| && forall n :: 0 <= n < |s| ==> t[n] == s[n].Swap()
  {
    seq(|s|, n requires 0 <= n < |s| => s[n].Swap())
  }

  lemma SubsetOfSameSize(a: set<Link>, b: set<Link>)
    requires a <= b && |a| == |b|
    ensures a == b
  {
    assert |b - a| == |b| - |a|;
    assert b == a + (b - a);
  }

  /** No link twice, and none in both directions. */
  ghost predicate NoneTwice(made: seq<Link>) {
    forall i, j :: 0 <= i < j < |made| ==> made[i] != made[j] && made[i] != made[j].Swap()
  }

  lemma BothWaysDistinct(made: seq<Link>)
    requires NoneTwice(made) && forall l :: l in made ==> l.from != l.to
    ensures Distinct(made + Swapped(made))
  {
    var both := made + Swapped(made);
    forall i, j | 0 <= i < j < |both| ensures both[i] != both[j] {
      var a, b := made[if i < |made| then i else i - |made|], made[if j < |made| then j else j - |made|];
      assert a.Swap().Swap() == a && b.Swap().Swap() == b;
    }
  }

  lemma BothWays(made: seq<Link>, l: Link)
    ensures l in Elements(made + Swapped(made)) <==> l in made || l.Swap() in made
  {
    var both := made + Swapped(made);
    assert l.Swap().Swap() == l;
    if l in made {
      var n :| 0 <= n < |made| && made[n] == l;
      assert both[n] == l;
    } else if l.Swap() in made {
      var n :| 0 <= n < |made| && made[n] == l.Swap();
      assert both[|made| + n] == l;
    }
  }

  /** Half the list is made exactly when every link is, in one direction. */
  lemma HalfIsAll(connections: seq<Link>, made: seq<Link>)
    requires Distinct(connections) && Closed(connections) && NoneTwice(made)
    requires forall l :: l in made ==> l in connections && l.from != l.to
    ensures 2 * |made| == |connections| <==> forall l :: l in connections ==> l in made || l.Swap() in made
  {
    var both := made + Swapped(made);
    BothWaysDistinct(made);
    MembersCount(both);
    MembersCount(connections);
    forall l ensures l in Elements(both) <==> l in made || l.Swap() in made {
      BothWays(made, l);
    }
    forall l | l in Elements(both) ensures l in Elements(connections) {
      assert l.Swap().Swap() == l;
    }
    if 2 * |made| == |connections| {
      SubsetOfSameSize(Elements(both), Elements(connections));
      forall l | l in connections ensures l in Elements(both) {
        assert l in Elements(connections);
      }
    }
    if forall l :: l in connections ==> l in made || l.Swap() in made {
      assert Elements(both) == Elements(connections);
    }
  }

  /** In whatever order the list is gone through: if half of it is made, it is bound soundly. */
  lemma WalkIsSound(connections: seq<Link>, order: seq<Link>)
    requires multiset(order) == multiset(connections)
    requires WellFormed(connections)
    requires 2 * |Walk(Binding(Ports(connections), []), order).made| == |connections|
    ensures var b := Walk(Binding(Ports(connections), []), order);
      && (forall l :: l in connections ==> (l in b.made) != (l.Swap() in b.made))
      && Distinct(b.made)
      && (forall k :: k in Ports(connections) ==> k in b.counts && Bindings(b.made, k) == UpTo(b.counts[k]))
      && (forall l :: l in connections ==> l.from.Port() in b.counts && l.from.index < b.counts[l.from.Port()])
  {
    var b := Walk(Binding(Ports(connections), []), order);
    SameMembers(order, connections);
    WalkIsConsistent(Ports(connections), order);
    WalkKeys(Binding(Ports(connections), []), order);
    HalfIsAll(connections, b.made);
    forall l | l in connections ensures (l in b.made) != (l.Swap() in b.made) && Passed(b.counts, l.from) {
      ExactlyOneWay(b, l);
    }
  }

  /**
   When the pass succeeds, every link is bound in exactly one direction, and
   every port has its slots 0, 1, 2, ... bound in that order, each listed slot
   among them.
   */
  lemma BindingIsSound(connections: seq<Link>, l: Link)
    requires WellFormed(connections)
    requires 2 * |Made(connections)| == |connections| && l in connections
    ensures (l in Made(connections)) != (l.Swap() in Made(connections))
    ensures Distinct(Made(connections))
    ensures exists n: nat :: n > l.from.index && Bindings(Made(connections), l.from.Port()) == UpTo(n)
  {
    SortLinksSorts(connections);
    WalkIsSound(connections, SortLinks(connections));
    PortsOf(connections, l);
  }

  lemma SameMembers(s: seq<Link>, t: seq<Link>)
    requires multiset(s) == multiset(t)
    ensures forall l :: l in s ==> l in t
  {
    forall l | l in s ensures l in t {
      assert l in multiset(s);
    }
  }

  lemma NoReverse(b: Binding, i: nat, j: nat)
    requires Consistent(b) && i < |b.made| && j < |b.made| && b.made[i].from != b.made[i].to
    ensures b.made[j] != b.made[i].Swap()
  {
    assert b.made[i].Swap().Swap() == b.made[i];
  }

  lemma ExactlyOneWay(b: Binding, l: Link)
    requires Consistent(b) && l.from != l.to && (l in b.made || l.Swap() in b.made)
    ensures (l in b.made) != (l.Swap() in b.made) && Passed(b.counts, l.from)
  {
    var m := if l in b.made then l else l.Swap();
    assert l.Swap().Swap() == l;
    var i :| 0 <= i < |b.made| && b.made[i] == m;
    forall j | 0 <= j < |b.made| ensures b.made[j] != m.Swap() {
      NoReverse(b, i, j);
    }
  }

  lemma {:induction false} WalkKeys(b: Binding, order: seq<Link>)
    ensures Walk(b, order).counts.Keys == b.counts.Keys
  {
    if order != [] {
      WalkKeys(b, order[..|order| - 1]);
    }
  }

  // ------------------------------------------------------------ when it all can be bound

  /** Each link takes the next free slot of the ports at both its ends. */
  predicate InTurn(s: seq<Link>) {
    s == []
    || var init, l := s[..|s| - 1], s[|s| - 1];
       && InTurn(init)
       && l.from.index == |Bindings(init, l.from.Port())|
       && l.to.index == |Bindings(init, l.to.Port())|
  }

  ghost function Among(order: seq<Link>, chosen: set<Link>): seq<Link> {
    if order == [] then []
    else
      var before := Among(order[..|order| - 1], chosen);
      if order[|order| - 1] in chosen then before + [order[|order| - 1]] else before
  }

  /** One direction of every listed link is chosen. */
  ghost predicate OneWay(chosen: set<Link>, links: seq<Link>) {
    forall l :: l in links ==> (l in chosen) != (l.Swap() in chosen)
  }

  ghost predicate Ordered(order: seq<Link>, chosen: set<Link>) {
    OneWay(chosen, order) && InTurn(Among(order, chosen))
  }

  /** One direction of every link can be chosen so that, in this order, every port's slots are taken in turn. */
  ghost predicate Orderable(order: seq<Link>) {
    exists chosen :: Ordered(order, chosen)
  }

  predicate Ends(l: Link, s: Slot) {
    l.from == s || l.to == s
  }

  lemma {:induction false} AmongIs(order: seq<Link>, chosen: set<Link>, l: Link)
    ensures l in Among(order, chosen) <==> l in order && l in chosen
  {
    if order != [] {
      AmongIs(order[..|order| - 1], chosen, l);
    }
  }

  lemma {:induction false} SizeUpTo(n: nat)
    ensures |UpTo(n)| == n
  {
    if n > 0 {
      SizeUpTo(n - 1);
    }
  }

  lemma {:induction false} InUpTo(n: nat, i: nat)
    requires i < n
    ensures i in UpTo(n)
  {
    if i < n - 1 {
      InUpTo(n - 1, i);
    }
  }

  /** Every slot a port has had bound belongs to a made link. */
  lemma {:induction false} BoundBy(made: seq<Link>, s: Slot)
    requires s.index in Bindings(made, s.Port())
    ensures exists l :: l in made && Ends(l, s)
  {
    var init, l := made[..|made| - 1], made[|made| - 1];
    if s.index in Bindings(init, s.Port()) {
      BoundBy(init, s);
      var m :| m in init && Ends(m, s);
      assert m in made;
    } else {
      assert l in made && Ends(l, s);
    }
  }

  lemma {:induction false} InTurnBinds(s: seq<Link>, k: Key)
    requires InTurn(s) && forall l :: l in s ==> l.from != l.to
    ensures Bindings(s, k) == UpTo(|Bindings(s, k)|)
  {
    if s != [] {
      InTurnBinds(s[..|s| - 1], k);
    }
  }

  lemma {:induction false} InTurnPassed(s: seq<Link>, l: Link, e: Slot)
    requires InTurn(s) && l in s && Ends(l, e)
    ensures e.index < |Bindings(s, e.Port())|
  {
    if l != s[|s| - 1] {
      InTurnPassed(s[..|s| - 1], l, e);
    }
  }

  /** No slot is taken twice. */
  lemma {:induction false} InTurnOnce(s: seq<Link>, l: Link, m: Link, e: Slot)
    requires InTurn(s) && l in s && m in s && Ends(l, e) && Ends(m, e)
    ensures l == m
  {
    var init, last := s[..|s| - 1], s[|s| - 1];
    if l in init && m in init {
      InTurnOnce(init, l, m, e);
    } else if l in init {
      InTurnPassed(init, l, e);
    } else if m in init {
      InTurnPassed(init, m, e);
    }
  }

  /** What is made is in turn. */
  lemma {:induction false} MadeInTurn(counts: map<Key, nat>, order: seq<Link>)
    requires forall k :: k in counts ==> counts[k] == 0
    requires forall n :: 0 <= n < |order| ==> order[n].from != order[n].to
    ensures InTurn(Walk(Binding(counts, []), order).made)
  {
    if order != [] {
      var init, l := order[..|order| - 1], order[|order| - 1];
      var b := Walk(Binding(counts, []), init);
      MadeInTurn(counts, init);
      WalkIsConsistent(counts, init);
      if Try(b, l) != b {
        SizeUpTo(l.from.index);
        SizeUpTo(l.to.index);
        assert (b.made + [l])[..|b.made|] == b.made;
      }
    }
  }

  lemma {:induction false} MadeIsListed(b: Binding, order: seq<Link>, l: Link)
    requires b.made == [] && l in Walk(b, order).made
    ensures l in order
  {
    var init := order[..|order| - 1];
    if l in Walk(b, init).made {
      MadeIsListed(b, init, l);
    }
  }

  /** Choosing what was made picks just that out of the order. */
  lemma {:induction false} MadeIsAmong(b: Binding, order: seq<Link>, chosen: set<Link>)
    requires b.made == [] && Distinct(order)
    requires forall l :: l in order ==> (l in chosen <==> l in Walk(b, order).made)
    ensures Among(order, chosen) == Walk(b, order).made
  {
    if order != [] {
      var init, last := order[..|order| - 1], order[|order| - 1];
      if last in Walk(b, init).made {
        MadeIsListed(b, init, last);
        assert false;
      }
      MadeIsAmong(b, init, chosen);
    }
  }

  ghost predicate Covers(made: seq<Link>, l: Link) {
    l in made || l.Swap() in made
  }

  ghost predicate AllCovered(made: seq<Link>, s: seq<Link>) {
    forall l :: l in s ==> Covers(made, l)
  }

  /** The slots before e are bound already, by the chosen links before. */
  lemma NotBehind(b: Binding, prior: seq<Link>, e: Slot)
    requires Consistent(b) && e.Port() in b.counts
    requires InTurn(prior) && AllCovered(b.made, prior) && forall m :: m in prior ==> m.from != m.to
    requires e.index == |Bindings(prior, e.Port())|
    ensures b.counts[e.Port()] >= e.index
  {
    if e.index > 0 {
      var d := Slot(e.objectName, e.portName, e.index - 1);
      InTurnBinds(prior, e.Port());
      InUpTo(e.index, d.index);
      BoundBy(prior, d);
      var m :| m in prior && Ends(m, d);
      CoveredIsPassed(b, m, d);
    }
  }

  lemma CoveredIsPassed(b: Binding, m: Link, d: Slot)
    requires AllPassed(b) && Covers(b.made, m) && Ends(m, d)
    ensures Passed(b.counts, d)
  {}

  /** No chosen link uses a slot another chosen link uses. */
  ghost predicate OneUse(links: seq<Link>, chosen: set<Link>) {
    forall l, m, e :: l in links && l in chosen && m in links && m in chosen && Ends(l, e) && Ends(m, e) ==> l == m
  }

  /** The slot of a link not bound yet is not bound by another one. */
  lemma NotAhead(b: Binding, links: seq<Link>, chosen: set<Link>, l: Link, e: Slot)
    requires Consistent(b) && e.Port() in b.counts && forall m :: m in b.made ==> m in links
    requires Closed(links) && OneWay(chosen, links) && OneUse(links, chosen)
    requires l in links && l in chosen && Ends(l, e) && !Covers(b.made, l)
    ensures b.counts[e.Port()] <= e.index
  {
    if b.counts[e.Port()] > e.index {
      InUpTo(b.counts[e.Port()], e.index);
      BoundBy(b.made, e);
      var m :| m in b.made && Ends(m, e);
      var c := if m in chosen then m else m.Swap();
      assert m.Swap().Swap() == m;
      assert c in links && c in chosen && Ends(c, e);
    }
  }

  lemma BindsChosen(b: Binding, prior: seq<Link>, links: seq<Link>, chosen: set<Link>, l: Link)
    requires Consistent(b) && WellFormed(links) && forall m :: m in b.made ==> m in links
    requires l.from.Port() in b.counts && l.to.Port() in b.counts
    requires InTurn(prior + [l]) && AllCovered(b.made, prior) && forall m :: m in prior ==> m in links
    requires OneWay(chosen, links) && OneUse(links, chosen) && l in links && l in chosen
    ensures Covers(Try(b, l).made, l)
  {
    assert (prior + [l])[..|prior|] == prior;
    if !Covers(b.made, l) {
      NotBehind(b, prior, l.from);
      NotBehind(b, prior, l.to);
      NotAhead(b, links, chosen, l, l.from);
      NotAhead(b, links, chosen, l, l.to);
      assert Try(b, l).made == b.made + [l];
    }
  }

  lemma TryKeepsCovered(b: Binding, l: Link, s: seq<Link>)
    requires AllCovered(b.made, s)
    ensures AllCovered(Try(b, l).made, s)
    ensures Covers(Try(b, l).made, l) ==> AllCovered(Try(b, l).made, s + [l])
  {}

  lemma AmongListed(order: seq<Link>, chosen: set<Link>, links: seq<Link>)
    requires forall l :: l in order ==> l in links
    ensures forall l :: l in Among(order, chosen) ==> l in links
  {
    forall l | l in Among(order, chosen) ensures l in links {
      AmongIs(order, chosen, l);
    }
  }

  /** The pass binds every chosen link it has gone through, in one direction or the other. */
  lemma {:induction false} GreedyKeepsUp(order: seq<Link>, links: seq<Link>, chosen: set<Link>)
    requires WellFormed(links) && forall l :: l in order ==> l in links
    requires OneWay(chosen, links) && OneUse(links, chosen) && InTurn(Among(order, chosen))
    ensures AllCovered(Walk(Binding(Ports(links), []), order).made, Among(order, chosen))
  {
    if order != [] {
      var init, last := order[..|order| - 1], order[|order| - 1];
      var b, prior := Walk(Binding(Ports(links), []), init), Among(init, chosen);
      if last in chosen {
        assert (prior + [last])[..|prior|] == prior;
        GreedyKeepsUp(init, links, chosen);
        WalkFacts(init, links, last);
        AmongListed(init, chosen, links);
        BindsChosen(b, prior, links, chosen, last);
      } else {
        GreedyKeepsUp(init, links, chosen);
      }
      TryKeepsCovered(b, last, prior);
    }
  }

  lemma WalkFacts(order: seq<Link>, links: seq<Link>, l: Link)
    requires WellFormed(links) && l in links && forall m :: m in order ==> m in links
    ensures var b := Walk(Binding(Ports(links), []), order);
      && Consistent(b) && (forall m :: m in b.made ==> m in links)
      && l.from.Port() in b.counts && l.to.Port() in b.counts
  {
    WalkIsConsistent(Ports(links), order);
    WalkKeys(Binding(Ports(links), []), order);
    PortsOf(links, l);
  }

  lemma InTurnIsOneUse(order: seq<Link>, links: seq<Link>, chosen: set<Link>)
    requires InTurn(Among(order, chosen)) && forall l :: l in links ==> l in order
    ensures OneUse(links, chosen)
  {
    forall l, m, e | l in links && l in chosen && m in links && m in chosen && Ends(l, e) && Ends(m, e)
      ensures l == m
    {
      AmongIs(order, chosen, l);
      AmongIs(order, chosen, m);
      InTurnOnce(Among(order, chosen), l, m, e);
    }
  }

  lemma DistinctPermutes(s: seq<Link>, t: seq<Link>)
    requires multiset(s) == multiset(t) && Distinct(s)
    ensures Distinct(t)
  {
    forall i, j | 0 <= i < j < |t| ensures t[i] != t[j] {
      if t[i] == t[j] {
        assert t == t[..i] + [t[i]] + t[i + 1..j] + [t[j]] + t[j + 1..];
        assert multiset(t)[t[i]] >= 2;
        OnceInDistinct(s, t[i]);
      }
    }
  }

  lemma {:induction false} OnceInDistinct(s: seq<Link>, l: Link)
    requires Distinct(s)
    ensures multiset(s)[l] <= 1
  {
    if s != [] {
      OnceInDistinct(s[..|s| - 1], l);
      assert s == s[..|s| - 1] + [s[|s| - 1]];
    }
  }

  lemma OrderedIsEnough(connections: seq<Link>, chosen: set<Link>)
    requires WellFormed(connections) && Ordered(SortLinks(connections), chosen)
    ensures 2 * |Made(connections)| == |connections|
  {
    var order := SortLinks(connections);
    SortLinksSorts(connections);
    SameMembers(order, connections);
    SameMembers(connections, order);
    OrderCovers(order, connections, chosen, Made(connections));
    MadeOnce(order, connections, Made(connections));
    HalfIsAll(connections, Made(connections));
  }

  lemma OrderCovers(order: seq<Link>, links: seq<Link>, chosen: set<Link>, made: seq<Link>)
    requires WellFormed(links) && Ordered(order, chosen) && made == Walk(Binding(Ports(links), []), order).made
    requires forall l :: l in order <==> l in links
    ensures forall l :: l in links ==> l in made || l.Swap() in made
  {
    InTurnIsOneUse(order, links, chosen);
    GreedyKeepsUp(order, links, chosen);
    ChosenIsAll(order, links, chosen, made);
  }

  lemma MadeOnce(order: seq<Link>, links: seq<Link>, made: seq<Link>)
    requires WellFormed(links) && (forall l :: l in order ==> l in links)
    requires made == Walk(Binding(Ports(links), []), order).made
    ensures NoneTwice(made) && forall l :: l in made ==> l in links
  {
    WalkIsConsistent(Ports(links), order);
  }

  lemma ChosenIsAll(order: seq<Link>, links: seq<Link>, chosen: set<Link>, made: seq<Link>)
    requires Closed(links) && OneWay(chosen, links) && forall l :: l in links ==> l in order
    requires AllCovered(made, Among(order, chosen))
    ensures forall l :: l in links ==> l in made || l.Swap() in made
  {
    forall l | l in links ensures Covers(made, l) {
      assert l.Swap().Swap() == l && l.Swap() in links;
      AmongIs(order, chosen, if l in chosen then l else l.Swap());
    }
  }

  lemma OrderableIsEnough(connections: seq<Link>)
    requires WellFormed(connections) && Orderable(SortLinks(connections))
    ensures 2 * |Made(connections)| == |connections|
  {
    var chosen :| Ordered(SortLinks(connections), chosen);
    OrderedIsEnough(connections, chosen);
  }

  lemma MadeIsOrdered(connections: seq<Link>)
    requires WellFormed(connections) && 2 * |Made(connections)| == |connections|
    ensures Ordered(SortLinks(connections), Elements(Made(connections)))
  {
    var order, made := SortLinks(connections), Made(connections);
    SortLinksSorts(connections);
    SameMembers(order, connections);
    WalkIsSound(connections, order);
    DistinctPermutes(connections, order);
    MadeIsAmong(Binding(Ports(connections), []), order, Elements(made));
    MadeInTurn(Ports(connections), order);
  }

  /**
   The pass succeeds exactly when one direction of every link can be chosen so
   that, in sorted order, the chosen links take the slots of every port in turn.
   */
  lemma BindingSucceedsWhen(connections: seq<Link>)
    requires WellFormed(connections)
    ensures 2 * |Made(connections)| == |connections| <==> Orderable(SortLinks(connections))
  {
    if 2 * |Made(connections)| == |connections| {
      MadeIsOrdered(connections);
    }
    if Orderable(SortLinks(connections)) {
      OrderableIsEnough(connections);
    }
  }

  /** Two links between two vector ports, crossed, in both directions and sorted. */
  function Crossed(): seq<Link> {
    var (p, q, r, s) := (Slot("a", "b", 0), Slot("a", "b", 1), Slot("c", "d", 0), Slot("c", "d", 1));
    [Link(p, s), Link(q, r), Link(r, q), Link(s, p)]
  }

  lemma CrossedFitsNowhere(n: nat)
    requires n < 4
    ensures var b := Binding(Ports(Crossed()), []); Try(b, Crossed()[n]) == b
  {
    var links := Crossed();
    assert links[0].from.Port() == ("a", "b") && links[2].from.Port() == ("c", "d");
    assert Ports(links)[("a", "b")] == 0 && Ports(links)[("c", "d")] == 0;
  }

  lemma CrossedIsAscending()
    ensures Ascending(Crossed())
  {
    assert Before("a", "c");
  }

  /** Sorting does not make every configuration bindable: these links are well formed, and none can be bound. */
  lemma CrossedLinksCannotBeOrdered()
    ensures WellFormed(Crossed()) && Ascending(Crossed())
    ensures Made(Crossed()) == [] && !Orderable(Crossed())
  {
    var links := Crossed();
    forall n | 0 <= n < |links| ensures Try(Binding(Ports(links), []), links[n]) == Binding(Ports(links), []) {
      CrossedFitsNowhere(n);
    }
    CrossedIsAscending();
    SortOfSorted(links);
    NothingFits(Binding(Ports(links), []), links);
    CrossedIsClosed();
    BindingSucceedsWhen(links);
  }

  lemma CrossedIsClosed()
    ensures WellFormed(Crossed())
  {
    var links := Crossed();
    assert links[0].Swap() == links[3] && links[1].Swap() == links[2];
    assert links[2].Swap() == links[1] && links[3].Swap() == links[0];
  }

  lemma {:induction false} SortOfSorted(s: seq<Link>)
    requires Ascending(s)
    ensures SortLinks(s) == s
  {
    if s != [] {
      var init, l := s[..|s| - 1], s[|s| - 1];
      SortOfSorted(init);
      assert init == [] || AtMost(init[|init| - 1], l);
      assert init + [l] == s;
    }
  }

  lemma {:induction false} NothingFits(b: Binding, order: seq<Link>)
    requires forall n :: 0 <= n < |order| ==> Try(b, order[n]) == b
    ensures Walk(b, order) == b
  {
    if order != [] {
      NothingFits(b, order[..|order| - 1]);
    }
  }

  // The list may come in any order.

  lemma AtMostBothWays(l: Link, m: Link)
    requires AtMost(l, m) && AtMost(m, l)
    ensures l == m
  {
    SlotNotBothWays(l.from, m.from);
    SlotNotBothWays(l.to, m.to);
  }

  lemma SlotNotBothWays(s: Slot, t: Slot)
    ensures !(SlotBefore(s, t) && SlotBefore(t, s)) && !SlotBefore(s, s)
  {
    SlotBeforeIsOrder(s, t, s);
    NeverBeforeItself(s.objectName);
    NeverBeforeItself(s.portName);
  }

  lemma LastIsLargest(s: seq<Link>, t: seq<Link>)
    requires s != [] && t != [] && Ascending(s) && Ascending(t) && multiset(s) == multiset(t)
    ensures s[|s| - 1] == t[|t| - 1]
  {
    var (l, m) := (s[|s| - 1], t[|t| - 1]);
    SameMembers(s, t);
    SameMembers(t, s);
    assert l in s && m in t;
    var i :| 0 <= i < |t| && t[i] == l;
    var j :| 0 <= j < |s| && s[j] == m;
    if l != m {
      AtMostBothWays(l, m);
    }
  }

  lemma BagOfLink(s: seq<Link>)
    requires s != []
    ensures multiset(s) == multiset(s[..|s| - 1]) + multiset{s[|s| - 1]}
  {
    assert s == s[..|s| - 1] + [s[|s| - 1]];
  }

  lemma {:induction false} OneSortedList(s: seq<Link>, t: seq<Link>)
    requires Ascending(s) && Ascending(t) && multiset(s) == multiset(t)
    ensures s == t
  {
    SameLength(s, t);
    if s != [] {
      LastIsLargest(s, t);
      SameWithoutLast(s, t);
      OneSortedList(s[..|s| - 1], t[..|t| - 1]);
      assert s == s[..|s| - 1] + [s[|s| - 1]] && t == t[..|t| - 1] + [t[|t| - 1]];
    }
  }

  lemma SameLength(s: seq<Link>, t: seq<Link>)
    requires multiset(s) == multiset(t)
    ensures |s| == |t|
  {
    assert |s| == |multiset(s)| == |multiset(t)| == |t|;
  }

  lemma SameWithoutLast(s: seq<Link>, t: seq<Link>)
    requires s != [] && t != [] && multiset(s) == multiset(t) && s[|s| - 1] == t[|t| - 1]
    ensures multiset(s[..|s| - 1]) == multiset(t[..|t| - 1])
  {
    BagOfLink(s);
    BagOfLink(t);
    var x := multiset{s[|s| - 1]};
    assert multiset(s[..|s| - 1]) == multiset(s) - x && multiset(t[..|t| - 1]) == multiset(t) - x;
  }

  /** In whatever order the links are listed, the pass makes the same of them. */
  lemma ListingOrderDoesNotMatter(s: seq<Link>, t: seq<Link>)
    requires multiset(s) == multiset(t)
    ensures SortLinks(s) == SortLinks(t) && Made(s) == Made(t)
  {
    SortLinksSorts(s);
    SortLinksSorts(t);
    OneSortedList(SortLinks(s), SortLinks(t));
    SamePorts(s, t);
  }

  lemma SamePorts(s: seq<Link>, t: seq<Link>)
    requires multiset(s) == multiset(t)
    ensures Ports(s) == Ports(t)
  {
    SameMembers(s, t);
    SameMembers(t, s);
    forall k | k in Ports(s) ensures k in Ports(t) {
      var n :| 0 <= n < |s| && s[n].from.Port() == k;
      PortsOf(t, s[n]);
    }
    forall k | k in Ports(t) ensures k in Ports(s) {
      var n :| 0 <= n < |t| && t[n].from.Port() == k;
      PortsOf(s, t[n]);
    }
  }

  // Three links between two vector ports and two more.

  const LINK_0 := Link(Slot("a", "x", 0), Slot("c", "p", 0))
  const LINK_1 := Link(Slot("a", "y", 0), Slot("c", "p", 1))
  const LINK_2 := Link(Slot("a", "y", 1), Slot("c", "q", 0))

  function ThreeLinks(): seq<Link> {
    [LINK_0, LINK_1, LINK_2, LINK_0.Swap(), LINK_1.Swap(), LINK_2.Swap()]
  }

  lemma ThreeLinksAscend()
    ensures Ascending(ThreeLinks())
  {
    assert Before("a", "c") && Before("x", "y") && Before("p", "q");
    var s := ThreeLinks();
    assert AtMost(s[0], s[1]) && AtMost(s[1], s[2]) && AtMost(s[2], s[3]) && AtMost(s[3], s[4]) && AtMost(s[4], s[5]);
    StepsAscend(s);
  }

  lemma {:induction false} StepsAscend(s: seq<Link>)
    requires forall n :: 0 < n < |s| ==> AtMost(s[n - 1], s[n])
    ensures Ascending(s)
  {
    if |s| > 1 {
      var init, l, m := s[..|s| - 1], s[|s| - 2], s[|s| - 1];
      StepsAscend(init);
      forall i | 0 <= i < |s| - 1 ensures AtMost(s[i], m) {
        AtMostIsOrder(init[i], l, m);
      }
    }
  }

  lemma ThreeLinksAreWellFormed()
    ensures WellFormed(ThreeLinks())
  {
    var s := ThreeLinks();
    forall l | l in s ensures l.Swap() in s {
      assert l.Swap() == s[0] || l.Swap() == s[1] || l.Swap() == s[2] || l.Swap() == s[3] || l.Swap() == s[4] || l.Swap() == s[5];
    }
  }

  lemma InTurnAppend(s: seq<Link>, l: Link)
    requires InTurn(s) && l.from.index == |Bindings(s, l.from.Port())| && l.to.index == |Bindings(s, l.to.Port())|
    ensures InTurn(s + [l])
    ensures forall k :: Bindings(s + [l], k) ==
                        Bindings(s, k) + (if l.from.Port() == k then [l.from.index] else [])
                        + (if l.to.Port() == k then [l.to.index] else [])
  {
    assert (s + [l])[..|s|] == s;
  }

  lemma ThreeLinksInTurn()
    ensures InTurn([LINK_0, LINK_1, LINK_2])
  {
    InTurnAppend([], LINK_0);
    assert [] + [LINK_0] == [LINK_0];
    InTurnAppend([LINK_0], LINK_1);
    assert [LINK_0] + [LINK_1] == [LINK_0, LINK_1];
    InTurnAppend([LINK_0, LINK_1], LINK_2);
    assert [LINK_0, LINK_1] + [LINK_2] == [LINK_0, LINK_1, LINK_2];
  }

  lemma AmongAppend(s: seq<Link>, l: Link, chosen: set<Link>)
    ensures Among(s + [l], chosen) == if l in chosen then Among(s, chosen) + [l] else Among(s, chosen)
  {
    assert (s + [l])[..|s|] == s;
  }

  lemma ThreeLinksChosen(chosen: set<Link>)
    requires LINK_0 in chosen && LINK_1 in chosen && LINK_2 in chosen
    requires LINK_0.Swap() !in chosen && LINK_1.Swap() !in chosen && LINK_2.Swap() !in chosen
    ensures Among(ThreeLinks(), chosen) == [LINK_0, LINK_1, LINK_2]
  {
    var (a, b, c) := (LINK_0, LINK_1, LINK_2);
    AmongAppend([], a, chosen);
    assert [] + [a] == [a];
    AmongAppend([a], b, chosen);
    assert [a] + [b] == [a, b];
    AmongAppend([a, b], c, chosen);
    assert [a, b] + [c] == [a, b, c];
    AmongAppend([a, b, c], a.Swap(), chosen);
    assert [a, b, c] + [a.Swap()] == [a, b, c, a.Swap()];
    AmongAppend([a, b, c, a.Swap()], b.Swap(), chosen);
    assert [a, b, c, a.Swap()] + [b.Swap()] == [a, b, c, a.Swap(), b.Swap()];
    AmongAppend([a, b, c, a.Swap(), b.Swap()], c.Swap(), chosen);
    assert [a, b, c, a.Swap(), b.Swap()] + [c.Swap()] == ThreeLinks();
  }

  lemma ThreeLinksOneWay(chosen: set<Link>)
    requires LINK_0 in chosen && LINK_1 in chosen && LINK_2 in chosen
    requires LINK_0.Swap() !in chosen && LINK_1.Swap() !in chosen && LINK_2.Swap() !in chosen
    ensures OneWay(chosen, ThreeLinks())
  {
    assert LINK_0.Swap().Swap() == LINK_0 && LINK_1.Swap().Swap() == LINK_1 && LINK_2.Swap().Swap() == LINK_2;
  }

  lemma ThreeLinksOrdered()
    ensures Orderable(ThreeLinks())
  {
    var chosen := Elements([LINK_0, LINK_1, LINK_2]);
    var s := [LINK_0, LINK_1, LINK_2];
    assert s[0] in chosen && s[1] in chosen && s[2] in chosen;
    ThreeLinksChosen(chosen);
    ThreeLinksOneWay(chosen);
    ThreeLinksInTurn();
    assert Ordered(ThreeLinks(), chosen);
  }

  /** These links are bound completely, in whatever order they are listed. */
  lemma ThreeLinksAreBound(connections: seq<Link>)
    requires multiset(connections) == multiset(ThreeLinks())
    ensures 2 * |Made(connections)| == |connections|
  {
    ListingOrderDoesNotMatter(connections, ThreeLinks());
    assert |multiset(connections)| == |connections| && |multiset(ThreeLinks())| == |ThreeLinks()|;
    ThreeLinksAscend();
    ThreeLinksAreWellFormed();
    SortOfSorted(ThreeLinks());
    ThreeLinksOrdered();
    OrderableIsEnough(ThreeLinks());
  }
}
