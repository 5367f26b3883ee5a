/** `connectedComponents`: union-find with path halving over the known nodes,
    grouped in order of first appearance and then sorted. */
module GraphCommunities {
  import opened Sequences
  import opened Utf16

  datatype Edge<T> = Edge(source: T, target: T)

  // ----- reference: reachability over the edges whose endpoints are known -----

  ghost predicate Linked<T(!new)>(ids: set<T>, edges: seq<Edge<T>>, x: T, y: T) {
    x in ids && y in ids && (Edge(x, y) in edges || Edge(y, x) in edges)
  }

  ghost predicate Walk<T(!new)>(ids: set<T>, edges: seq<Edge<T>>, p: seq<T>) {
    && (forall i :: 0 <= i < |p| ==> p[i] in ids)
    && forall i :: 0 <= i < |p| - 1 ==> Linked(ids, edges, p[i], p[i + 1])
  }

  ghost predicate Connected<T(!new)>(ids: set<T>, edges: seq<Edge<T>>, x: T, y: T) {
    exists p :: p != [] && p[0] == x && p[|p| - 1] == y && Walk(ids, edges, p)
  }

  lemma ConnectedSelf<T(!new)>(ids: set<T>, edges: seq<Edge<T>>, x: T)
    requires x in ids
    ensures Connected(ids, edges, x, x)
  {
    assert [x][0] == x && Walk(ids, edges, [x]);
  }

  lemma ConnectedLink<T(!new)>(ids: set<T>, edges: seq<Edge<T>>, x: T, y: T)
    requires Linked(ids, edges, x, y)
    ensures Connected(ids, edges, x, y)
  {
    assert [x, y][0] == x && Walk(ids, edges, [x, y]);
  }

  lemma ConnectedTransitive<T(!new)>(ids: set<T>, edges: seq<Edge<T>>, x: T, y: T, z: T)
    requires Connected(ids, edges, x, y) && Connected(ids, edges, y, z)
    ensures Connected(ids, edges, x, z)
  {
    var p :| p != [] && p[0] == x && p[|p| - 1] == y && Walk(ids, edges, p);
    var q :| q != [] && q[0] == y && q[|q| - 1] == z && Walk(ids, edges, q);
    var r := p + q[1..];
    forall i | 0 <= i < |r| - 1 ensures Linked(ids, edges, r[i], r[i + 1]) {
      if i >= |p| - 1 { assert r[i] == q[i - |p| + 1] && r[i + 1] == q[i - |p| + 2]; }
    }
    assert r[0] == x && r[|r| - 1] == z;
  }

  /** The relation that `edges` induces on `ids`. */
  ghost function Reachable<T(!new)>(ids: set<T>, edges: seq<Edge<T>>): set<(T, T)> {
    set x, y | x in ids && y in ids && Connected(ids, edges, x, y) :: (x, y)
  }

  // ----- the parent map -----

  /** The pointer of `x` leads towards the root of its tree: `rank` grows along it. */
  ghost predicate Leads<T(!new)>(parent: map<T, T>, rank: map<T, nat>, root: map<T, T>, x: T)
    requires x in parent && parent.Keys == rank.Keys == root.Keys
  {
    && parent[x] in parent && root[x] in parent
    && (if parent[x] == x then root[x] == x else rank[x] < rank[parent[x]])
    && root[parent[x]] == root[x] && parent[root[x]] == root[x]
  }

  /** An acyclic forest in which `root` sends every node to the root of its tree. */
  ghost predicate Forest<T(!new)>(parent: map<T, T>, rank: map<T, nat>, root: map<T, T>) {
    && parent.Keys == rank.Keys == root.Keys
    && forall x {:trigger Leads(parent, rank, root, x)} :: x in parent ==> Leads(parent, rank, root, x)
  }

  ghost predicate Below<T(!new)>(rank: map<T, nat>, bound: nat) {
    forall x :: x in rank ==> rank[x] < bound
  }

  lemma HalvingKeepsForest<T(!new)>(parent: map<T, T>, rank: map<T, nat>, root: map<T, T>, cur: T)
    requires Forest(parent, rank, root) && cur in parent && parent[cur] != cur
    ensures parent[cur] in parent && parent[parent[cur]] in parent
    ensures root[parent[cur]] == root[cur] && rank[cur] < rank[parent[cur]]
    ensures Forest(parent[cur := parent[parent[cur]]], rank, root)
  {
    assert Leads(parent, rank, root, cur);
    assert Leads(parent, rank, root, parent[cur]);
    var parent' := parent[cur := parent[parent[cur]]];
    forall x | x in parent' ensures Leads(parent', rank, root, x) {
      assert Leads(parent, rank, root, x);
      assert Leads(parent, rank, root, root[x]);
    }
  }

  /** `find` ends, returns the root, and leaves every tree's nodes and root alone. */
  method Find<T(==, !new)>(parents: map<T, T>, id: T, ghost rank: map<T, nat>, ghost root: map<T, T>, ghost bound: nat)
    returns (parent: map<T, T>, cur: T)
    requires Forest(parents, rank, root) && Below(rank, bound) && id in parents
    ensures Forest(parent, rank, root)
    ensures cur in parent && cur == root[id] && parent[cur] == cur
  {
    parent := parents;
    assert Leads(parent, rank, root, id);
    cur := parent[id];
    while parent[cur] != cur
      invariant Forest(parent, rank, root)
      invariant cur in parent && root[cur] == root[id]
      decreases bound - rank[cur]
    {
      HalvingKeepsForest(parent, rank, root, cur);
      var next := parent[cur];
      parent := parent[cur := parent[next]];
      cur := next;
    }
    assert Leads(parent, rank, root, cur);
  }

  ghost function Redirect<T(!new)>(root: map<T, T>, from: T, to: T): (r: map<T, T>)
    ensures r.Keys == root.Keys
  {
    map x | x in root :: if root[x] == from then to else root[x]
  }

  ghost function Raise<T(!new)>(rank: map<T, nat>, low: T, high: T): (r: map<T, nat>)
    requires low in rank && high in rank
    ensures r.Keys == rank.Keys
  {
    rank[high := if rank[high] > rank[low] then rank[high] else rank[low] + 1]
  }

  lemma LinkKeepsForest<T(!new)>(parent: map<T, T>, rank: map<T, nat>, root: map<T, T>, pa: T, pb: T)
    requires Forest(parent, rank, root) && pa in parent && pb in parent
    requires parent[pa] == pa && parent[pb] == pb && pa != pb
    ensures Forest(parent[pa := pb], Raise(rank, pa, pb), Redirect(root, pa, pb))
  {
    var parent', rank', root' := parent[pa := pb], Raise(rank, pa, pb), Redirect(root, pa, pb);
    assert Leads(parent, rank, root, pa) && Leads(parent, rank, root, pb);
    forall x | x in parent' ensures Leads(parent', rank', root', x) {
      assert Leads(parent, rank, root, x);
      assert Leads(parent, rank, root, root[x]);
    }
  }

  method Union<T(==, !new)>(parents: map<T, T>, a: T, b: T, ghost rank: map<T, nat>, ghost root: map<T, T>,
                            ghost bound: nat)
    returns (parent: map<T, T>, ghost rank': map<T, nat>)
    requires Forest(parents, rank, root) && Below(rank, bound) && a in parents && b in parents
    ensures parent.Keys == parents.Keys
    ensures Forest(parent, rank', Redirect(root, root[a], root[b])) && Below(rank', bound + 1)
  {
    var pa, pb;
    parent, pa := Find(parents, a, rank, root, bound);
    parent, pb := Find(parent, b, rank, root, bound);
    assert Leads(parent, rank, root, a);
    rank' := rank;
    if pa != pb {
      LinkKeepsForest(parent, rank, root, pa, pb);
      parent := parent[pa := pb];
      rank' := Raise(rank, pa, pb);
    } else {
      assert Redirect(root, pa, pb) == root;
    }
  }

  /** The trees are exactly the classes of the edges seen so far. */
  ghost predicate Partitions<T(!new)>(root: map<T, T>, edges: seq<Edge<T>>) {
    forall x, y :: x in root && y in root ==> (root[x] == root[y] <==> Connected(root.Keys, edges, x, y))
  }

  lemma {:induction false} WalkKeepsRoot<T(!new)>(root: map<T, T>, edges: seq<Edge<T>>, p: seq<T>)
    requires forall x, y :: Linked(root.Keys, edges, x, y) ==> root[x] == root[y]
    requires p != [] && Walk(root.Keys, edges, p)
    ensures root[p[0]] == root[p[|p| - 1]]
  {
    if |p| > 1 {
      assert Linked(root.Keys, edges, p[0], p[1]);
      WalkKeepsRoot(root, edges, p[1..]);
    }
  }

  lemma ConnectedMonotone<T(!new)>(ids: set<T>, edges: seq<Edge<T>>, e: Edge<T>, x: T, y: T)
    requires Connected(ids, edges, x, y)
    ensures Connected(ids, edges + [e], x, y)
  {
    var p :| p != [] && p[0] == x && p[|p| - 1] == y && Walk(ids, edges, p);
    forall i | 0 <= i < |p| - 1 ensures Linked(ids, edges + [e], p[i], p[i + 1]) {
      assert Linked(ids, edges, p[i], p[i + 1]);
    }
    assert Walk(ids, edges + [e], p);
  }

  lemma NoEdgesPartition<T(!new)>(root: map<T, T>)
    requires forall x :: x in root ==> root[x] == x
    ensures Partitions(root, [])
  {
    forall x, y | x in root && y in root ensures root[x] == root[y] <==> Connected(root.Keys, [], x, y) {
      if x == y { ConnectedSelf(root.Keys, [], x); }
      if Connected(root.Keys, [], x, y) {
        var p :| p != [] && p[0] == x && p[|p| - 1] == y && Walk(root.Keys, [], p);
        WalkKeepsRoot(root, [], p);
      }
    }
  }

  lemma EdgeMerges<T(!new)>(root: map<T, T>, root': map<T, T>, edges: seq<Edge<T>>, e: Edge<T>)
    requires Partitions(root, edges) && root'.Keys == root.Keys
    requires if e.source in root && e.target in root
             then root' == Redirect(root, root[e.source], root[e.target])
             else root' == root
    ensures Partitions(root', edges + [e])
  {
    var ids := root.Keys;
    forall x, y | Linked(ids, edges + [e], x, y) ensures root'[x] == root'[y] {
      if Linked(ids, edges, x, y) { ConnectedLink(ids, edges, x, y); }
    }
    forall x, y | x in root && y in root ensures root'[x] == root'[y] <==> Connected(ids, edges + [e], x, y) {
      if Connected(ids, edges + [e], x, y) {
        var p :| p != [] && p[0] == x && p[|p| - 1] == y && Walk(ids, edges + [e], p);
        WalkKeepsRoot(root', edges + [e], p);
      }
      if root'[x] == root'[y] {
        if root[x] == root[y] {
          ConnectedMonotone(ids, edges, e, x, y);
        } else if root[x] == root[e.source] {
          JoinThrough(ids, edges, e, x, e.source, e.target, y);
        } else {
          JoinThrough(ids, edges, e, x, e.target, e.source, y);
        }
      }
    }
  }

  lemma JoinThrough<T(!new)>(ids: set<T>, edges: seq<Edge<T>>, e: Edge<T>, x: T, a: T, b: T, y: T)
    requires Connected(ids, edges, x, a) && Connected(ids, edges, b, y)
    requires a in ids && b in ids && (e == Edge(a, b) || e == Edge(b, a))
    ensures Connected(ids, edges + [e], x, y)
  {
    ConnectedMonotone(ids, edges, e, x, a);
    ConnectedMonotone(ids, edges, e, b, y);
    ConnectedLink(ids, edges + [e], a, b);
    ConnectedTransitive(ids, edges + [e], x, a, b);
    ConnectedTransitive(ids, edges + [e], x, b, y);
  }

  // ----- grouping and ordering -----

  /** The ids of `s` that `x` is related to, in order. */
  ghost function ClassIn<T(!new)>(rel: set<(T, T)>, x: T, s: seq<T>): (c: seq<T>)
    ensures forall y :: y in c <==> y in s && (x, y) in rel
  {
    if s == [] then []
    else
      var y := s[|s| - 1];
      var c := ClassIn(rel, x, s[..|s| - 1]);
      assert s == s[..|s| - 1] + [y];
      if (x, y) in rel then c + [y] else c
  }

  lemma {:induction false} ClassInCounts<T(!new)>(rel: set<(T, T)>, x: T, s: seq<T>)
    ensures forall y :: (x, y) in rel ==> multiset(ClassIn(rel, x, s))[y] == multiset(s)[y]
  {
    if s != [] {
      ClassInCounts(rel, x, s[..|s| - 1]);
      assert s == s[..|s| - 1] + [s[|s| - 1]];
    }
  }

  /** The ids of `s` that no earlier id is related to. */
  ghost function Leaders<T(!new)>(rel: set<(T, T)>, s: seq<T>): seq<T> {
    if s == [] then []
    else
      var y := s[|s| - 1];
      var l := Leaders(rel, s[..|s| - 1]);
      if exists x :: x in l && (x, y) in rel then l else l + [y]
  }

  ghost function Classes<T(!new)>(rel: set<(T, T)>, s: seq<T>): (cs: seq<seq<T>>)
    ensures |cs| == |Leaders(rel, s)|
    ensures forall k :: 0 <= k < |cs| ==> cs[k] == ClassIn(rel, Leaders(rel, s)[k], s)
  {
    var l := Leaders(rel, s);
    seq(|l|, k requires 0 <= k < |l| => ClassIn(rel, l[k], s))
  }

  function First(g: seq<Text>): Text { if g == [] then [] else g[0] }

  /** Larger groups first, then by the comparison of their first ids. */
  predicate Before(compare: (Text, Text) -> int, g: seq<Text>, h: seq<Text>) {
    |g| > |h| || (|g| == |h| && compare(First(g), First(h)) <= 0)
  }

  function InsertGroup(compare: (Text, Text) -> int, g: seq<Text>, s: seq<seq<Text>>): (r: seq<seq<Text>>)
    ensures multiset(r) == multiset(s) + multiset{g}
  {
    if s == [] then [g]
    else if Before(compare, g, s[0]) then [g] + s
    else
      assert s == [s[0]] + s[1..];
      [s[0]] + InsertGroup(compare, g, s[1..])
  }

  /** The stable sort of the groups. */
  function SortGroups(compare: (Text, Text) -> int, s: seq<seq<Text>>): (r: seq<seq<Text>>)
    ensures multiset(r) == multiset(s)
  {
    if s == [] then []
    else
      assert s == [s[0]] + s[1..];
      InsertGroup(compare, s[0], SortGroups(compare, s[1..]))
  }

  function SortEach(s: seq<seq<Text>>): (r: seq<seq<Text>>)
    ensures |r| == |s| && forall k :: 0 <= k < |s| ==> r[k] == Sort(s[k])
  {
    seq(|s|, k requires 0 <= k < |s| => Sort(s[k]))
  }

  ghost function Components(ids: seq<Text>, edges: seq<Edge<Text>>, compare: (Text, Text) -> int): seq<seq<Text>> {
    SortGroups(compare, SortEach(Classes(Reachable((set x | x in ids), edges), ids)))
  }

  /** The `k`th group is the class of the `k`th leader of `s`, under its root. */
  ghost predicate Slot<T(!new)>(order: seq<T>, groups: map<T, seq<T>>, root: map<T, T>, rel: set<(T, T)>, s: seq<T>,
                                l: seq<T>, k: nat)
    requires |order| == |l| && k < |l|
  {
    l[k] in root && order[k] == root[l[k]] && order[k] in groups && groups[order[k]] == ClassIn(rel, l[k], s)
  }

  /** What the grouping loop knows after the prefix `s`: the keys of `groups` in
      insertion order are the roots of the leaders of `s`. */
  ghost predicate Grouped<T(!new)>(order: seq<T>, groups: map<T, seq<T>>, root: map<T, T>, rel: set<(T, T)>,
                                   s: seq<T>)
  {
    var l := Leaders(rel, s);
    && |order| == |l| && Distinct(order) && groups.Keys == (set k | k in order)
    && (forall k {:trigger Slot(order, groups, root, rel, s, l, k)} ::
          0 <= k < |l| ==> Slot(order, groups, root, rel, s, l, k))
    && (forall x :: x in s ==> x in root && root[x] in groups)
  }

  ghost predicate SameRoots<T(!new)>(root: map<T, T>, rel: set<(T, T)>) {
    forall x, y :: x in root && y in root ==> (root[x] == root[y] <==> (x, y) in rel)
  }

  function Append<T(==)>(groups: map<T, seq<T>>, r: T, id: T): map<T, seq<T>> {
    groups[r := (if r in groups then groups[r] else []) + [id]]
  }

  lemma ClassInAppend<T(!new)>(rel: set<(T, T)>, x: T, s: seq<T>, y: T)
    ensures ClassIn(rel, x, s + [y]) == if (x, y) in rel then ClassIn(rel, x, s) + [y] else ClassIn(rel, x, s)
  {
    assert (s + [y])[..|s|] == s;
  }

  lemma {:induction false} ClassInNothing<T(!new)>(rel: set<(T, T)>, x: T, s: seq<T>)
    requires forall y :: y in s ==> (x, y) !in rel
    ensures ClassIn(rel, x, s) == []
  {
    if s != [] { ClassInNothing(rel, x, s[..|s| - 1]); }
  }

  lemma LeadersAppend<T(!new)>(rel: set<(T, T)>, s: seq<T>, y: T)
    ensures var l := Leaders(rel, s);
      Leaders(rel, s + [y]) == if exists x :: x in l && (x, y) in rel then l else l + [y]
  {
    assert (s + [y])[..|s|] == s;
  }

  lemma GroupExisting<T(!new)>(order: seq<T>, groups: map<T, seq<T>>, root: map<T, T>, rel: set<(T, T)>, s: seq<T>,
      id: T)
    requires Grouped(order, groups, root, rel, s) && SameRoots(root, rel) && id in root && root[id] in groups
    ensures Grouped(order, Append(groups, root[id], id), root, rel, s + [id])
  {
    var l, g := Leaders(rel, s), Append(groups, root[id], id);
    LeadersAppend(rel, s, id);
    var k :| 0 <= k < |order| && order[k] == root[id];
    assert Slot(order, groups, root, rel, s, l, k);
    assert l[k] in l && (l[k], id) in rel;
    forall j | 0 <= j < |l| ensures Slot(order, g, root, rel, s + [id], l, j) {
      assert Slot(order, groups, root, rel, s, l, j);
      ClassInAppend(rel, l[j], s, id);
    }
  }

  lemma FreshLeader<T(!new)>(order: seq<T>, groups: map<T, seq<T>>, root: map<T, T>, rel: set<(T, T)>, s: seq<T>, id: T)
    requires Grouped(order, groups, root, rel, s) && SameRoots(root, rel) && id in root && root[id] !in groups
    ensures Leaders(rel, s + [id]) == Leaders(rel, s) + [id]
    ensures ClassIn(rel, id, s + [id]) == [id]
  {
    var l := Leaders(rel, s);
    forall x | x in l ensures (x, id) !in rel {
      var j :| 0 <= j < |l| && l[j] == x;
      assert Slot(order, groups, root, rel, s, l, j);
    }
    LeadersAppend(rel, s, id);
    ClassInAppend(rel, id, s, id);
    ClassInNothing(rel, id, s);
  }

  lemma GroupFresh<T(!new)>(order: seq<T>, groups: map<T, seq<T>>, root: map<T, T>, rel: set<(T, T)>, s: seq<T>, id: T)
    requires Grouped(order, groups, root, rel, s) && SameRoots(root, rel) && id in root && root[id] !in groups
    ensures Grouped(order + [root[id]], Append(groups, root[id], id), root, rel, s + [id])
  {
    var l, g, o := Leaders(rel, s), Append(groups, root[id], id), order + [root[id]];
    FreshLeader(order, groups, root, rel, s, id);
    forall j | 0 <= j < |l| + 1 ensures Slot(o, g, root, rel, s + [id], l + [id], j) {
      if j < |l| {
        assert Slot(order, groups, root, rel, s, l, j);
        ClassInAppend(rel, l[j], s, id);
      }
    }
    assert root[id] !in order;
  }

  lemma GroupedValues<T(!new)>(order: seq<T>, groups: map<T, seq<T>>, root: map<T, T>, rel: set<(T, T)>, s: seq<T>)
    requires Grouped(order, groups, root, rel, s)
    ensures forall k :: 0 <= k < |order| ==> order[k] in groups
    ensures seq(|order|, k requires 0 <= k < |order| => groups[order[k]]) == Classes(rel, s)
  {
    var l := Leaders(rel, s);
    forall k | 0 <= k < |order| ensures order[k] in groups && groups[order[k]] == ClassIn(rel, l[k], s) {
      assert Slot(order, groups, root, rel, s, l, k);
    }
  }

  /** The values of `groups` in insertion order are the classes. */
  method GroupByRoot<T(==, !new)>(nodeIds: seq<T>, parents: map<T, T>, ghost rank: map<T, nat>, ghost root: map<T, T>,
                                  ghost bound: nat, ghost rel: set<(T, T)>)
    returns (values: seq<seq<T>>)
    requires Forest(parents, rank, root) && Below(rank, bound) && SameRoots(root, rel)
    requires forall x :: x in nodeIds ==> x in parents
    ensures values == Classes(rel, nodeIds)
  {
    var parent := parents;
    var order: seq<T>, groups: map<T, seq<T>> := [], map[];
    for i := 0 to |nodeIds|
      invariant Forest(parent, rank, root)
      invariant Grouped(order, groups, root, rel, nodeIds[..i])
    {
      var id, r := nodeIds[i], nodeIds[i];
      assert id in parents && nodeIds[..i + 1] == nodeIds[..i] + [id];
      parent, r := Find(parent, id, rank, root, bound);
      if r in groups {
        GroupExisting(order, groups, root, rel, nodeIds[..i], id);
      } else {
        GroupFresh(order, groups, root, rel, nodeIds[..i], id);
        order := order + [r];
      }
      groups := Append(groups, r, id);
    }
    assert nodeIds[..|nodeIds|] == nodeIds;
    GroupedValues(order, groups, root, rel, nodeIds);
    values := seq(|order|, k requires 0 <= k < |order| => groups[order[k]]);
  }

  /** `parent` starts with every id as its own root. */
  method Singletons<T(==, !new)>(nodeIds: seq<T>) returns (parent: map<T, T>)
    ensures parent.Keys == (set x | x in nodeIds)
    ensures forall x :: x in parent ==> parent[x] == x
  {
    parent := map[];
    for i := 0 to |nodeIds|
      invariant parent.Keys == (set x | x in nodeIds[..i])
      invariant forall x :: x in parent ==> parent[x] == x
    {
      parent := parent[nodeIds[i] := nodeIds[i]];
    }
    assert nodeIds[..|nodeIds|] == nodeIds;
  }

  lemma SingletonForest<T(!new)>(parent: map<T, T>, rank: map<T, nat>)
    requires forall x :: x in parent ==> parent[x] == x
    requires rank == map x | x in parent :: 0
    ensures Forest(parent, rank, parent) && Below(rank, 1) && Partitions(parent, [])
  {
    NoEdgesPartition(parent);
  }

  /** After all edges the trees are the classes of the edges whose endpoints are known. */
  method UnionEdges<T(==, !new)>(nodeIds: seq<T>, edges: seq<Edge<T>>)
    returns (parent: map<T, T>, ghost rank: map<T, nat>, ghost root: map<T, T>, ghost bound: nat)
    ensures parent.Keys == (set x | x in nodeIds)
    ensures Forest(parent, rank, root) && Below(rank, bound) && Partitions(root, edges)
  {
    parent := Singletons(nodeIds);
    ghost var ids := parent.Keys;
    rank, root, bound := map x | x in parent :: 0, parent, 1;
    SingletonForest(parent, rank);
    assert edges[..0] == [];
    for i := 0 to |edges|
      invariant parent.Keys == ids
      invariant Forest(parent, rank, root) && Below(rank, bound) && Partitions(root, edges[..i])
    {
      var edge := edges[i];
      assert edges[..i + 1] == edges[..i] + [edge];
      if edge.source in parent && edge.target in parent {
        ghost var joined := Redirect(root, root[edge.source], root[edge.target]);
        EdgeMerges(root, joined, edges[..i], edge);
        parent, rank := Union(parent, edge.source, edge.target, rank, root, bound);
        root, bound := joined, bound + 1;
      } else {
        EdgeMerges(root, root, edges[..i], edge);
      }
    }
    assert edges[..|edges|] == edges;
  }

  method ConnectedComponents(nodeIds: seq<Text>, edges: seq<Edge<Text>>, compare: (Text, Text) -> int)
    returns (components: seq<seq<Text>>)
    ensures components == Components(nodeIds, edges, compare)
  {
    ghost var rank, root, bound;
    var parent;
    parent, rank, root, bound := UnionEdges(nodeIds, edges);
    ghost var ids := set x | x in nodeIds;
    var values := GroupByRoot(nodeIds, parent, rank, root, bound, Reachable(ids, edges));
    components := SortGroups(compare, SortEach(values));
  }

  // ----- what the components are -----

  lemma {:induction false} LeadersCover<T(!new)>(rel: set<(T, T)>, s: seq<T>, x: T)
    requires x in s && (x, x) in rel
    ensures exists l :: l in Leaders(rel, s) && (l, x) in rel
  {
    var y, t := s[|s| - 1], s[..|s| - 1];
    assert s == t + [y];
    if x in t {
      LeadersCover(rel, t, x);
      var l :| l in Leaders(rel, t) && (l, x) in rel;
      assert l in Leaders(rel, s);
    }
  }

  lemma {:induction false} LeadersApart<T(!new)>(rel: set<(T, T)>, s: seq<T>)
    ensures forall x :: x in Leaders(rel, s) ==> x in s
    ensures forall j, k :: 0 <= j < k < |Leaders(rel, s)| ==> (Leaders(rel, s)[j], Leaders(rel, s)[k]) !in rel
  {
    if s != [] {
      LeadersApart(rel, s[..|s| - 1]);
    }
  }

  lemma ReachableIsEquivalence<T(!new)>(ids: set<T>, edges: seq<Edge<T>>)
    ensures var rel := Reachable(ids, edges);
      && (forall x :: x in ids ==> (x, x) in rel)
      && (forall x, y :: (x, y) in rel ==> (y, x) in rel)
      && (forall x, y, z :: (x, y) in rel && (y, z) in rel ==> (x, z) in rel)
  {
    forall x | x in ids ensures Connected(ids, edges, x, x) { ConnectedSelf(ids, edges, x); }
    forall x, y | Connected(ids, edges, x, y) ensures Connected(ids, edges, y, x) {
      ConnectedSymmetric(ids, edges, x, y);
    }
    forall x, y, z | Connected(ids, edges, x, y) && Connected(ids, edges, y, z) ensures Connected(ids, edges, x, z) {
      ConnectedTransitive(ids, edges, x, y, z);
    }
  }

  lemma ConnectedSymmetric<T(!new)>(ids: set<T>, edges: seq<Edge<T>>, x: T, y: T)
    requires Connected(ids, edges, x, y)
    ensures Connected(ids, edges, y, x)
  {
    var p :| p != [] && p[0] == x && p[|p| - 1] == y && Walk(ids, edges, p);
    var q := seq(|p|, i requires 0 <= i < |p| => p[|p| - 1 - i]);
    forall i | 0 <= i < |q| - 1 ensures Linked(ids, edges, q[i], q[i + 1]) {
      assert Linked(ids, edges, p[|p| - 2 - i], p[|p| - 1 - i]);
    }
    assert q[0] == y && q[|q| - 1] == x && Walk(ids, edges, q);
  }

  ghost predicate IsClass(ids: seq<Text>, edges: seq<Edge<Text>>, g: seq<Text>) {
    && g != [] && Ordered(g)
    && (forall x :: x in g ==> multiset(g)[x] == multiset(ids)[x])
    && (forall x, y :: x in g ==> (y in g <==> y in ids && Connected((set x | x in ids), edges, x, y)))
  }

  /** Every id is in a group; a group is sorted and is the whole class of each
      of its ids, as often as the id was given; no class has two groups. */
  ghost predicate AreClasses(ids: seq<Text>, edges: seq<Edge<Text>>, groups: multiset<seq<Text>>) {
    && (forall x :: x in ids ==> exists g :: g in groups && x in g)
    && (forall g, h, x :: g in groups && h in groups && x in g && x in h ==> g == h)
    && (forall g :: g in groups ==> groups[g] == 1 && IsClass(ids, edges, g))
  }

  /** Group `k`, sorted, holds what the leader `x` is related to. */
  ghost predicate GroupOf(rel: set<(Text, Text)>, ids: seq<Text>, x: Text, g: seq<Text>) {
    && Ordered(g)
    && (forall y :: y in g <==> y in ids && (x, y) in rel)
    && (forall y :: y in g ==> multiset(g)[y] == multiset(ids)[y])
  }

  lemma SortedGroup(rel: set<(Text, Text)>, ids: seq<Text>, x: Text)
    ensures GroupOf(rel, ids, x, Sort(ClassIn(rel, x, ids)))
  {
    var c := ClassIn(rel, x, ids);
    SortOrdered(c);
    ClassInCounts(rel, x, ids);
    forall y ensures y in Sort(c) <==> y in c {
      assert y in Sort(c) <==> y in multiset(Sort(c));
    }
  }

  lemma GroupsApart(rel: set<(Text, Text)>, ids: seq<Text>, l: seq<Text>, groups: seq<seq<Text>>)
    requires forall x, y :: (x, y) in rel ==> (y, x) in rel
    requires forall x, y, z :: (x, y) in rel && (y, z) in rel ==> (x, z) in rel
    requires l == Leaders(rel, ids) && |groups| == |l|
    requires forall k :: 0 <= k < |l| ==> GroupOf(rel, ids, l[k], groups[k])
    ensures forall j, k, x :: 0 <= j < |l| && 0 <= k < |l| && x in groups[j] && x in groups[k] ==> j == k
  {
    LeadersApart(rel, ids);
    forall j, k, x | 0 <= j < |l| && 0 <= k < |l| && x in groups[j] && x in groups[k] ensures j == k {
      assert (l[j], x) in rel && (x, l[k]) in rel && (l[j], l[k]) in rel && (l[k], l[j]) in rel;
    }
  }

  lemma GroupsCover(rel: set<(Text, Text)>, ids: seq<Text>, l: seq<Text>, groups: seq<seq<Text>>, x: Text)
    requires l == Leaders(rel, ids) && |groups| == |l| && x in ids && (x, x) in rel
    requires forall k :: 0 <= k < |l| ==> GroupOf(rel, ids, l[k], groups[k])
    ensures exists g :: g in groups && x in g
  {
    LeadersCover(rel, ids, x);
    var k :| 0 <= k < |l| && (l[k], x) in rel;
    assert groups[k] in groups;
  }

  lemma GroupIsClass(ids: seq<Text>, edges: seq<Edge<Text>>, a: Text, g: seq<Text>)
    requires GroupOf(Reachable((set x | x in ids), edges), ids, a, g) && a in g
    ensures IsClass(ids, edges, g)
  {
    var known := set x | x in ids;
    ReachableIsEquivalence(known, edges);
    var rel := Reachable(known, edges);
    forall x, y | x in g ensures y in g <==> y in ids && Connected(known, edges, x, y) {
      assert (a, x) in rel && (x, a) in rel;
      assert y in ids ==> ((x, y) in rel <==> (a, y) in rel);
    }
  }

  lemma SortedClasses(ids: seq<Text>, edges: seq<Edge<Text>>)
    ensures AreClasses(ids, edges, multiset(SortEach(Classes(Reachable((set x | x in ids), edges), ids))))
  {
    var known := set x | x in ids;
    var rel := Reachable(known, edges);
    var l, groups := Leaders(rel, ids), SortEach(Classes(rel, ids));
    ReachableIsEquivalence(known, edges);
    LeadersApart(rel, ids);
    forall k | 0 <= k < |l| ensures l[k] in groups[k] && GroupOf(rel, ids, l[k], groups[k]) {
      SortedGroup(rel, ids, l[k]);
      assert l[k] in l;
    }
    GroupsApart(rel, ids, l, groups);
    forall x | x in ids ensures exists g :: g in groups && x in g { GroupsCover(rel, ids, l, groups, x); }
    forall k | 0 <= k < |l| ensures IsClass(ids, edges, groups[k]) { GroupIsClass(ids, edges, l[k], groups[k]); }
    Assemble(ids, edges, groups);
  }

  lemma Assemble(ids: seq<Text>, edges: seq<Edge<Text>>, groups: seq<seq<Text>>)
    requires forall x :: x in ids ==> exists g :: g in groups && x in g
    requires forall k :: 0 <= k < |groups| ==> IsClass(ids, edges, groups[k])
    requires forall j, k, x :: 0 <= j < |groups| && 0 <= k < |groups| && x in groups[j] && x in groups[k] ==> j == k
    ensures AreClasses(ids, edges, multiset(groups))
  {
    forall j, k | 0 <= j < k < |groups| ensures groups[j] != groups[k] {
      assert IsClass(ids, edges, groups[j]);
      var x := groups[j][0];
      assert x in groups[j] && x !in groups[k];
    }
    forall g | g in groups ensures multiset(groups)[g] == 1 { DistinctCount(groups, g); }
  }

  /** The result is exactly the reachability classes. */
  lemma ComponentsAreClasses(ids: seq<Text>, edges: seq<Edge<Text>>, compare: (Text, Text) -> int)
    ensures AreClasses(ids, edges, multiset(Components(ids, edges, compare)))
  {
    SortedClasses(ids, edges);
  }

  /** It depends on which nodes are linked, not on the order, direction or
      repetition of edges, nor on edges with an unknown endpoint. */
  lemma EdgeOrderIrrelevant(ids: seq<Text>, e: seq<Edge<Text>>, f: seq<Edge<Text>>, compare: (Text, Text) -> int)
    requires var known := set x | x in ids; forall x, y :: Linked(known, e, x, y) <==> Linked(known, f, x, y)
    ensures Components(ids, e, compare) == Components(ids, f, compare)
  {
    var known := set x | x in ids;
    forall x, y ensures Connected(known, e, x, y) <==> Connected(known, f, x, y) {
      forall p ensures Walk(known, e, p) <==> Walk(known, f, p) {}
    }
    assert Reachable(known, e) == Reachable(known, f);
  }

  /** A comparison that orders any two texts and is transitive. */
  ghost predicate Consistent(compare: (Text, Text) -> int) {
    && (forall a, b :: compare(a, b) <= 0 || compare(b, a) <= 0)
    && (forall a, b, c :: compare(a, b) <= 0 && compare(b, c) <= 0 ==> compare(a, c) <= 0)
  }

  ghost predicate Sorted(compare: (Text, Text) -> int, s: seq<seq<Text>>) {
    forall i, j :: 0 <= i < j < |s| ==> Before(compare, s[i], s[j])
  }

  lemma {:induction false} InsertGroupSorted(compare: (Text, Text) -> int, g: seq<Text>, s: seq<seq<Text>>)
    requires Consistent(compare) && Sorted(compare, s)
    ensures Sorted(compare, InsertGroup(compare, g, s))
  {
    if s != [] && !Before(compare, g, s[0]) {
      InsertGroupSorted(compare, g, s[1..]);
      var t := InsertGroup(compare, g, s[1..]);
      forall j | 0 <= j < |t| ensures Before(compare, s[0], t[j]) {
        assert t[j] in multiset(t);
        assert t[j] == g || t[j] in multiset(s[1..]);
      }
    }
  }

  /** Groups come largest first, and equal sizes in the order of their least ids. */
  lemma {:induction false} SortGroupsSorted(compare: (Text, Text) -> int, s: seq<seq<Text>>)
    requires Consistent(compare)
    ensures Sorted(compare, SortGroups(compare, s))
  {
    if s != [] {
      SortGroupsSorted(compare, s[1..]);
      InsertGroupSorted(compare, s[0], SortGroups(compare, s[1..]));
    }
  }

  /** In the result the larger group comes first, and of two groups of one size the one
      whose first id compares lower. */
  lemma GroupsDescend(ids: seq<Text>, edges: seq<Edge<Text>>, compare: (Text, Text) -> int, i: nat, j: nat)
    requires Consistent(compare) && i < j < |Components(ids, edges, compare)|
    ensures var g, h := Components(ids, edges, compare)[i], Components(ids, edges, compare)[j];
      || |g| > |h|
      || (|g| == |h| && compare(if g == [] then [] else g[0], if h == [] then [] else h[0]) <= 0)
  {
    SortGroupsSorted(compare, SortEach(Classes(Reachable((set x | x in ids), edges), ids)));
  }

  predicate Tied(compare: (Text, Text) -> int, g: seq<Text>, h: seq<Text>) {
    && |g| == |h|
    && compare(if g == [] then [] else g[0], if h == [] then [] else h[0]) <= 0
    && compare(if h == [] then [] else h[0], if g == [] then [] else g[0]) <= 0
  }

  /** The groups that neither come before `g` nor after it, in their order. */
  function Ties(compare: (Text, Text) -> int, g: seq<Text>, s: seq<seq<Text>>): seq<seq<Text>> {
    if s == [] then [] else (if Tied(compare, g, s[0]) then [s[0]] else []) + Ties(compare, g, s[1..])
  }

  lemma {:induction false} InsertKeepsTies(compare: (Text, Text) -> int, g: seq<Text>, x: seq<Text>, s: seq<seq<Text>>)
    requires Consistent(compare)
    ensures Ties(compare, g, InsertGroup(compare, x, s)) ==
      (if Tied(compare, g, x) then [x] else []) + Ties(compare, g, s)
  {
    hide Tied, Ties, Consistent;
    if s == [] || Before(compare, x, s[0]) {
      assert InsertGroup(compare, x, s) == [x] + s;
      TiesFront(compare, g, x, s);
    } else {
      var rest := InsertGroup(compare, x, s[1..]);
      InsertKeepsTies(compare, g, x, s[1..]);
      TiesFront(compare, g, s[0], rest);
      TiesFront(compare, g, s[0], s[1..]);
      assert s == [s[0]] + s[1..];
      NotBothTied(compare, g, x, s[0]);
    }
  }

  lemma TiesFront(compare: (Text, Text) -> int, g: seq<Text>, x: seq<Text>, s: seq<seq<Text>>)
    ensures Ties(compare, g, [x] + s) == (if Tied(compare, g, x) then [x] else []) + Ties(compare, g, s)
  {
    assert ([x] + s)[1..] == s;
  }

  /** A group that has to come later than another is not tied with the same as that. */
  lemma NotBothTied(compare: (Text, Text) -> int, g: seq<Text>, x: seq<Text>, y: seq<Text>)
    requires Consistent(compare) && !Before(compare, x, y)
    ensures !Tied(compare, g, x) || !Tied(compare, g, y)
  {
    var a, b, c := First(x), First(g), First(y);
    assert compare(a, b) <= 0 && compare(b, c) <= 0 ==> compare(a, c) <= 0;
  }

  /** The sort is stable: groups that tie stay in the order of their first nodes. */
  lemma {:induction false} TiesKept(compare: (Text, Text) -> int, g: seq<Text>, s: seq<seq<Text>>)
    requires Consistent(compare)
    ensures Ties(compare, g, SortGroups(compare, s)) == Ties(compare, g, s)
  {
    if s != [] {
      TiesKept(compare, g, s[1..]);
      InsertKeepsTies(compare, g, s[0], SortGroups(compare, s[1..]));
    }
  }
}
