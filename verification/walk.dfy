/**
 The depth-first walk of `l9_ci/governance/reports.py` over a possibly cyclic, possibly
 shared object graph, with its shared `seen` set.
 */
module Walk {
  import opened Order
  import opened Text

  /** A Python value: a string, another scalar, or a container known by its identity. */
  datatype Value = Str(s: string) | Scalar | Container(id: nat)

  datatype Node =
    | Mapping(entries: seq<(string, Value)>)
    | List(items: seq<Value>)
    | Tuple(items: seq<Value>)

  type Graph = map<nat, Node>

  datatype Visit = Visit(path: string, value: Value)

  function Kids(n: Node): seq<Value> {
    match n
    case Mapping(entries) => EntryValues(entries)
    case List(items) => items
    case Tuple(items) => items
  }

  function EntryValues(entries: seq<(string, Value)>): (r: seq<Value>)
    ensures |r| == |entries| && forall i :: 0 <= i < |r| ==> r[i] == entries[i].1
  {
    if entries == [] then [] else [entries[0].1] + EntryValues(entries[1..])
  }

  /** Every referenced container exists. */
  ghost predicate Closed(g: Graph) {
    forall id, c :: id in g && c in Kids(g[id]) ==> InGraph(g, c)
  }

  predicate InGraph(g: Graph, v: Value) { v.Container? ==> v.id in g }

  /** The children of a node with the paths they are reported under. */
  function PathedKids(n: Node, path: string): (r: seq<Visit>)
    ensures |r| == |Kids(n)| && forall i :: 0 <= i < |r| ==> r[i].value == Kids(n)[i]
  {
    match n
    case Mapping(entries) => seq(|entries|, i requires 0 <= i < |entries| =>
        Visit(if path == "" then entries[i].0 else path + "." + entries[i].0, entries[i].1))
    case _ => seq(|n.items|, i requires 0 <= i < |n.items| => Visit(path + "[" + Digits(i) + "]", n.items[i]))
  }

  // ---------------------------------------------------------- specification

  datatype State = State(seen: set<nat>, visited: seq<Visit>)

  /** The walk from one value: what is seen afterwards and what it yields. */
  function Walking(g: Graph, v: Visit, seen: set<nat>): (r: State)
    ensures seen <= r.seen
    decreases g.Keys - seen, 0
  {
    if !v.value.Container? then State(seen, [v])
    else if v.value.id in seen || v.value.id !in g then State(seen, [])
    else
      var rest := WalkingAll(g, PathedKids(g[v.value.id], v.path), seen + {v.value.id});
      State(rest.seen, [v] + rest.visited)
  }

  function WalkingAll(g: Graph, vs: seq<Visit>, seen: set<nat>): (r: State)
    ensures seen <= r.seen
    decreases g.Keys - seen, |vs| + 1
  {
    if vs == [] then State(seen, []) else
    var first := Walking(g, vs[0], seen);
    var rest := WalkingAll(g, vs[1..], first.seen);
    State(rest.seen, first.visited + rest.visited)
  }

  lemma KidsInGraph(g: Graph, v: Visit)
    requires Closed(g) && v.value.Container? && v.value.id in g
    ensures forall k :: k in PathedKids(g[v.value.id], v.path) ==> InGraph(g, k.value)
  {
    forall k | k in PathedKids(g[v.value.id], v.path) ensures InGraph(g, k.value) {
      assert k.value in Kids(g[v.value.id]);
    }
  }

  lemma Regroup(a: seq<Visit>, b: seq<Visit>, c: seq<Visit>)
    ensures a + (b + c) == a + b + c
  {}

  lemma SeenShrinks(all: set<nat>, seen: set<nat>, id: nat)
    requires id in all && id !in seen
    ensures all - (seen + {id}) < all - seen
  {
    assert id in all - seen && id !in all - (seen + {id});
  }

  lemma WalkingNode(g: Graph, v: Visit, seen: set<nat>)
    requires v.value.Container? && v.value.id in g && v.value.id !in seen
    ensures var rest := WalkingAll(g, PathedKids(g[v.value.id], v.path), seen + {v.value.id});
            Walking(g, v, seen) == State(rest.seen, [v] + rest.visited)
  {}

  lemma WalkingAllStep(g: Graph, vs: seq<Visit>, i: nat, seen: set<nat>)
    requires i < |vs|
    ensures var first := Walking(g, vs[i], seen);
            var rest := WalkingAll(g, vs[i + 1..], first.seen);
            WalkingAll(g, vs[i..], seen) == State(rest.seen, first.visited + rest.visited)
  {
    assert vs[i..][0] == vs[i] && vs[i..][1..] == vs[i + 1..];
  }

  // -------------------------------------------------------------- algorithm

  /** The generator with the `seen` set it shares along its recursion. */
  class Walker {
    const g: Graph
    var seen: set<nat>
    var visited: seq<Visit>

    constructor (g: Graph)
      ensures this.g == g && seen == {} && visited == []
    {
      this.g := g;
      seen, visited := {}, [];
    }

    method Step(v: Visit)
      requires Closed(g) && InGraph(g, v.value)
      modifies this
      ensures seen == Walking(g, v, old(seen)).seen
      ensures visited == old(visited) + Walking(g, v, old(seen)).visited
      decreases g.Keys - seen, 0
    {
      if v.value.Container? {
        if v.value.id in seen { return; }
        WalkingNode(g, v, seen);
        SeenShrinks(g.Keys, seen, v.value.id);
        seen := seen + {v.value.id};
      }
      visited := visited + [v];
      if v.value.Container? {
        var kids := PathedKids(g[v.value.id], v.path);
        KidsInGraph(g, v);
        ghost var rest := WalkingAll(g, kids, seen);
        StepAll(kids);
        Regroup(old(visited), [v], rest.visited);
      }
    }

    method StepAll(kids: seq<Visit>)
      requires Closed(g) && forall k :: k in kids ==> InGraph(g, k.value)
      modifies this
      ensures seen == WalkingAll(g, kids, old(seen)).seen
      ensures visited == old(visited) + WalkingAll(g, kids, old(seen)).visited
      decreases g.Keys - seen, 1
    {
      ghost var all := WalkingAll(g, kids, seen);
      assert kids[0..] == kids;
      for i := 0 to |kids|
        invariant old(seen) <= seen
        invariant all.seen == WalkingAll(g, kids[i..], seen).seen
        invariant old(visited) + all.visited == visited + WalkingAll(g, kids[i..], seen).visited
      {
        WalkingAllStep(g, kids, i, seen);
        assert kids[i] in kids;
        ghost var (first, before) := (Walking(g, kids[i], seen), visited);
        ghost var rest := WalkingAll(g, kids[i + 1..], first.seen);
        Step(kids[i]);
        Regroup(before, first.visited, rest.visited);
      }
    }
  }

  // ------------------------------------------------------------- properties

  /** The ids of the containers yielded, in order. */
  function ContainerIds(vs: seq<Visit>): seq<nat> {
    if vs == [] then []
    else (if vs[0].value.Container? then [vs[0].value.id] else []) + ContainerIds(vs[1..])
  }

  lemma {:induction false} ContainerIdsAppend(a: seq<Visit>, b: seq<Visit>)
    ensures ContainerIds(a + b) == ContainerIds(a) + ContainerIds(b)
  {
    if a == [] {
      assert a + b == b;
    } else {
      assert (a + b)[0] == a[0] && (a + b)[1..] == a[1..] + b;
      ContainerIdsAppend(a[1..], b);
      var head := if a[0].value.Container? then [a[0].value.id] else [];
      assert head + (ContainerIds(a[1..]) + ContainerIds(b)) == head + ContainerIds(a[1..]) + ContainerIds(b);
    }
  }

  ghost predicate Yields(vs: seq<Visit>, v: Value) { exists i :: 0 <= i < |vs| && vs[i].value == v }

  /** A value is done with: a container has been seen, anything else has been yielded. */
  ghost predicate Handled(seen: set<nat>, vs: seq<Visit>, v: Value) {
    if v.Container? then v.id in seen else Yields(vs, v)
  }

  /** All children of the containers first seen during this part of the walk are handled. */
  ghost predicate Settled(g: Graph, before: set<nat>, r: State) {
    forall id, c :: id in r.seen - before && id in g && c in Kids(g[id]) ==> Handled(r.seen, r.visited, c)
  }

  /** The containers yielded are exactly the newly seen ones, each once. */
  ghost predicate YieldsNewOnce(before: set<nat>, r: State) {
    Distinct(ContainerIds(r.visited)) && forall id :: id in ContainerIds(r.visited) <==> id in r.seen - before
  }

  lemma HandledMore(before: set<nat>, after: set<nat>, a: seq<Visit>, b: seq<Visit>, c: seq<Visit>, v: Value)
    requires before <= after && Handled(before, b, v)
    ensures Handled(after, a + b + c, v)
  {
    if !v.Container? {
      var i :| 0 <= i < |b| && b[i].value == v;
      assert (a + b + c)[|a| + i].value == v;
    }
  }

  lemma SettledNode(g: Graph, v: Visit, seen: set<nat>, rest: State)
    requires v.value.Container? && v.value.id in g && v.value.id !in seen
    requires Settled(g, seen + {v.value.id}, rest)
    requires forall c :: c in Kids(g[v.value.id]) ==> Handled(rest.seen, rest.visited, c)
    ensures Settled(g, seen, State(rest.seen, [v] + rest.visited))
  {
    forall id, c | id in rest.seen - seen && id in g && c in Kids(g[id])
      ensures Handled(rest.seen, [v] + rest.visited, c)
    {
      HandledMore(rest.seen, rest.seen, [v], rest.visited, [], c);
      assert [v] + rest.visited + [] == [v] + rest.visited;
    }
  }

  lemma SettledJoin(g: Graph, seen: set<nat>, first: State, rest: State)
    requires Settled(g, seen, first) && Settled(g, first.seen, rest) && first.seen <= rest.seen
    ensures Settled(g, seen, State(rest.seen, first.visited + rest.visited))
  {
    var all := first.visited + rest.visited;
    assert all == [] + first.visited + rest.visited && all == first.visited + rest.visited + [];
    forall id, c | id in rest.seen - seen && id in g && c in Kids(g[id]) ensures Handled(rest.seen, all, c) {
      if id in first.seen {
        HandledMore(first.seen, rest.seen, [], first.visited, rest.visited, c);
      } else {
        HandledMore(rest.seen, rest.seen, first.visited, rest.visited, [], c);
      }
    }
  }

  lemma YieldsNewJoin(seen: set<nat>, first: State, rest: State)
    requires seen <= first.seen <= rest.seen && YieldsNewOnce(seen, first) && YieldsNewOnce(first.seen, rest)
    ensures YieldsNewOnce(seen, State(rest.seen, first.visited + rest.visited))
  {
    ContainerIdsAppend(first.visited, rest.visited);
    var (a, b) := (ContainerIds(first.visited), ContainerIds(rest.visited));
    forall i, j | 0 <= i < j < |a + b| ensures (a + b)[i] != (a + b)[j] {
      if i < |a| <= j { assert a[i] in a && b[j - |a|] in b; }
    }
  }

  lemma {:induction false} WalkingFacts(g: Graph, v: Visit, seen: set<nat>)
    requires Closed(g) && InGraph(g, v.value)
    ensures YieldsNewOnce(seen, Walking(g, v, seen))
    ensures Settled(g, seen, Walking(g, v, seen))
    ensures Handled(Walking(g, v, seen).seen, Walking(g, v, seen).visited, v.value)
    decreases g.Keys - seen, 0
  {
    if !v.value.Container? {
      assert Walking(g, v, seen).visited[0].value == v.value;
    } else if v.value.id !in seen {
      var id := v.value.id;
      var kids := PathedKids(g[id], v.path);
      forall k | k in kids ensures InGraph(g, k.value) { assert k.value in Kids(g[id]); }
      WalkingAllFacts(g, kids, seen + {id});
      var rest := WalkingAll(g, kids, seen + {id});
      forall c | c in Kids(g[id]) ensures Handled(rest.seen, rest.visited, c) {
        var i :| 0 <= i < |kids| && Kids(g[id])[i] == c;
        assert kids[i] in kids;
      }
      SettledNode(g, v, seen, rest);
      YieldsNode(v, seen, rest);
    }
  }

  lemma YieldsNode(v: Visit, seen: set<nat>, rest: State)
    requires v.value.Container? && v.value.id !in seen && v.value.id in rest.seen
    requires YieldsNewOnce(seen + {v.value.id}, rest)
    ensures YieldsNewOnce(seen, State(rest.seen, [v] + rest.visited))
  {
    var id, ids := v.value.id, ContainerIds(rest.visited);
    ContainerIdsAppend([v], rest.visited);
    assert ContainerIds([v]) == [id] + ContainerIds([]);
    assert ContainerIds([v] + rest.visited) == [id] + ids && id !in ids;
    DistinctCons(id, ids);
    assert forall x :: x in [id] + ids <==> x == id || x in ids;
  }

  lemma {:induction false} WalkingAllFacts(g: Graph, vs: seq<Visit>, seen: set<nat>)
    requires Closed(g) && forall v :: v in vs ==> InGraph(g, v.value)
    ensures YieldsNewOnce(seen, WalkingAll(g, vs, seen))
    ensures Settled(g, seen, WalkingAll(g, vs, seen))
    ensures forall v :: v in vs ==> Handled(WalkingAll(g, vs, seen).seen, WalkingAll(g, vs, seen).visited, v.value)
    decreases g.Keys - seen, |vs| + 1
  {
    if vs != [] {
      var first := Walking(g, vs[0], seen);
      var rest := WalkingAll(g, vs[1..], first.seen);
      var r := WalkingAll(g, vs, seen);
      WalkingFacts(g, vs[0], seen);
      WalkingAllFacts(g, vs[1..], first.seen);
      YieldsNewJoin(seen, first, rest);
      SettledJoin(g, seen, first, rest);
      assert r == State(rest.seen, first.visited + rest.visited);
      assert r.visited == [] + first.visited + rest.visited && r.visited == first.visited + rest.visited + [];
      HandledMore(first.seen, rest.seen, [], first.visited, rest.visited, vs[0].value);
      forall v | v in vs ensures Handled(r.seen, r.visited, v.value) {
        if v != vs[0] {
          assert v in vs[1..];
          HandledMore(rest.seen, rest.seen, first.visited, rest.visited, [], v.value);
        }
      }
    }
  }

  /** `b` is a child of the container `a`. */
  ghost predicate Edge(g: Graph, a: Value, b: Value) { a.Container? && a.id in g && b in Kids(g[a.id]) }

  ghost predicate IsChain(g: Graph, p: seq<Value>) {
    p != [] && forall i :: 0 < i < |p| ==> Edge(g, p[i - 1], p[i])
  }

  /** `b` can be reached from `a` by following references. */
  ghost predicate Reaches(g: Graph, a: Value, b: Value) {
    exists p :: IsChain(g, p) && p[0] == a && p[|p| - 1] == b
  }

  lemma ReachesSelf(g: Graph, a: Value)
    ensures Reaches(g, a, a)
  {
    assert IsChain(g, [a]) && [a][0] == a && [a][|[a]| - 1] == a;
  }

  lemma ReachesThrough(g: Graph, a: Value, b: Value, c: Value)
    requires Edge(g, a, b) && Reaches(g, b, c)
    ensures Reaches(g, a, c)
  {
    var p :| IsChain(g, p) && p[0] == b && p[|p| - 1] == c;
    var q := [a] + p;
    assert IsChain(g, q) && q[0] == a && q[|q| - 1] == c;
  }

  /** Only what is reachable is yielded. */
  lemma {:induction false} WalkingReaches(g: Graph, v: Visit, seen: set<nat>, w: Value)
    requires Yields(Walking(g, v, seen).visited, w)
    ensures Reaches(g, v.value, w)
    decreases g.Keys - seen, 0
  {
    if w == v.value {
      ReachesSelf(g, w);
    } else {
      var id := v.value.id;
      var kids := PathedKids(g[id], v.path);
      var rest := WalkingAll(g, kids, seen + {id});
      var i :| 0 <= i < |Walking(g, v, seen).visited| && Walking(g, v, seen).visited[i].value == w;
      assert rest.visited[i - 1].value == w;
      var k := WalkingAllReaches(g, kids, seen + {id}, w);
      assert kids[k].value == Kids(g[id])[k];
      ReachesThrough(g, v.value, kids[k].value, w);
    }
  }

  lemma {:induction false} WalkingAllReaches(g: Graph, vs: seq<Visit>, seen: set<nat>, w: Value) returns (k: nat)
    requires Yields(WalkingAll(g, vs, seen).visited, w)
    ensures k < |vs| && Reaches(g, vs[k].value, w)
    decreases g.Keys - seen, |vs| + 1
  {
    var first := Walking(g, vs[0], seen);
    if Yields(first.visited, w) {
      WalkingReaches(g, vs[0], seen, w);
      k := 0;
    } else {
      var r := WalkingAll(g, vs, seen);
      var i :| 0 <= i < |r.visited| && r.visited[i].value == w;
      assert i >= |first.visited| && WalkingAll(g, vs[1..], first.seen).visited[i - |first.visited|].value == w;
      k := WalkingAllReaches(g, vs[1..], first.seen, w);
      k := k + 1;
    }
  }

  /** A finished walk has handled everything a chain from its root leads to. */
  lemma {:induction false} ChainHandled(g: Graph, root: Visit, p: seq<Value>)
    requires Closed(g) && InGraph(g, root.value) && IsChain(g, p) && p[0] == root.value
    ensures var r := Walking(g, root, {}); Handled(r.seen, r.visited, p[|p| - 1])
    decreases |p|
  {
    var r := Walking(g, root, {});
    WalkingFacts(g, root, {});
    if |p| > 1 {
      var q := p[..|p| - 1];
      ChainHandled(g, root, q);
      assert Edge(g, q[|q| - 1], p[|p| - 1]);
    }
  }

  /**
   The walk of a finite graph, cyclic and shared parts included, yields each reachable
   container exactly once, every reachable string and scalar, and nothing else.
   */
  lemma WalkComplete(g: Graph, root: Visit)
    requires Closed(g) && InGraph(g, root.value)
    ensures var r := Walking(g, root, {});
            && Distinct(ContainerIds(r.visited))
            && (forall id :: id in ContainerIds(r.visited) <==> Reaches(g, root.value, Container(id)))
            && (forall v: Value :: !v.Container? ==> (Yields(r.visited, v) <==> Reaches(g, root.value, v)))
  {
    var r := Walking(g, root, {});
    WalkingFacts(g, root, {});
    forall id ensures id in ContainerIds(r.visited) <==> Reaches(g, root.value, Container(id)) {
      if id in ContainerIds(r.visited) {
        ContainerIdYielded(r.visited, id);
        WalkingReaches(g, root, {}, Container(id));
      }
      if Reaches(g, root.value, Container(id)) {
        var p :| IsChain(g, p) && p[0] == root.value && p[|p| - 1] == Container(id);
        ChainHandled(g, root, p);
      }
    }
    forall v: Value | !v.Container? ensures Yields(r.visited, v) <==> Reaches(g, root.value, v) {
      if Yields(r.visited, v) { WalkingReaches(g, root, {}, v); }
      if Reaches(g, root.value, v) {
        var p :| IsChain(g, p) && p[0] == root.value && p[|p| - 1] == v;
        ChainHandled(g, root, p);
      }
    }
  }

  /** Following child indices from the visit `v` arrives at the visit `w`, path included. */
  ghost predicate Leads(g: Graph, v: Visit, steps: seq<nat>, w: Visit)
    decreases |steps|
  {
    if steps == [] then v == w else
    && v.value.Container? && v.value.id in g
    && steps[0] < |Kids(g[v.value.id])| && Leads(g, PathedKids(g[v.value.id], v.path)[steps[0]], steps[1..], w)
  }

  lemma {:induction false} WalkingLeads(g: Graph, v: Visit, seen: set<nat>, w: Visit) returns (steps: seq<nat>)
    requires w in Walking(g, v, seen).visited
    ensures Leads(g, v, steps, w)
    decreases g.Keys - seen, 0
  {
    if w == v {
      steps := [];
    } else {
      var kids := PathedKids(g[v.value.id], v.path);
      var k, more := WalkingAllLeads(g, kids, seen + {v.value.id}, w);
      steps := [k] + more;
      assert steps[1..] == more;
    }
  }

  lemma {:induction false} WalkingAllLeads(g: Graph, vs: seq<Visit>, seen: set<nat>, w: Visit)
    returns (k: nat, steps: seq<nat>)
    requires w in WalkingAll(g, vs, seen).visited
    ensures k < |vs| && Leads(g, vs[k], steps, w)
    decreases g.Keys - seen, |vs| + 1
  {
    var first := Walking(g, vs[0], seen);
    assert WalkingAll(g, vs, seen).visited == first.visited + WalkingAll(g, vs[1..], first.seen).visited;
    if w in first.visited {
      steps := WalkingLeads(g, vs[0], seen, w);
      k := 0;
    } else {
      k, steps := WalkingAllLeads(g, vs[1..], first.seen, w);
      k := k + 1;
    }
  }

  /** Some sequence of child indices leads from `v` to `w`. */
  ghost predicate Found(g: Graph, v: Visit, w: Visit) { exists steps :: Leads(g, v, steps, w) }

  /** The path of every value yielded leads from the root to it. */
  lemma PathsLead(g: Graph, root: Visit)
    ensures forall w :: w in Walking(g, root, {}).visited ==> Found(g, root, w)
  {
    var visited := Walking(g, root, {}).visited;
    forall w | w in visited ensures Found(g, root, w) {
      var steps := WalkingLeads(g, root, {}, w);
    }
  }

  lemma {:induction false} ContainerIdYielded(vs: seq<Visit>, id: nat)
    requires id in ContainerIds(vs)
    ensures Yields(vs, Container(id))
  {
    if vs[0].value == Container(id) {
    } else {
      ContainerIdYielded(vs[1..], id);
      var i :| 0 <= i < |vs[1..]| && vs[1..][i].value == Container(id);
      assert vs[i + 1].value == Container(id);
    }
  }
}
