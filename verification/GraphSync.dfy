/** The local graph replica: how hub rows are merged into nodes and edges, and
    how a shape is pulled page by page with a saved cursor. Times are
    milliseconds; a row is kept with its optional fields as it arrived. */
module GraphSync {
  import opened Options

  type Time = int

  // ----- LEAST, GREATEST and COALESCE, which pass over nulls -----

  function Min(a: Time, b: Time): Time { if a <= b then a else b }
  function Max(a: Time, b: Time): Time { if a <= b then b else a }

  function Least(a: Option<Time>, b: Option<Time>): Option<Time> {
    match (a, b)
    case (None, _) => b
    case (_, None) => a
    case (Some(x), Some(y)) => Some(Min(x, y))
  }

  function Coalesce<T>(a: Option<T>, b: Option<T>): Option<T> {
    if a.Some? then a else b
  }

  // ----- rows -----

  type Attributes = map<string, string>

  datatype NodeRow = NodeRow(
    id: Option<string>, kind: Option<string>, name: Option<string>, naturalKey: Option<string>,
    repo: Option<string>, summary: Option<string>, searchText: Option<string>, attributes: Attributes,
    firstSeenAt: Option<Time>, lastConfirmedAt: Option<Time>, deletedAt: Option<Time>)

  datatype Node = Node(
    kind: string, name: string, naturalKey: string, repo: Option<string>, summary: Option<string>,
    searchText: string, attributes: Attributes, firstSeenAt: Time, lastConfirmedAt: Time, deletedAt: Option<Time>)

  datatype EdgeRow = EdgeRow(
    id: Option<string>, sourceId: Option<string>, targetId: Option<string>, relation: Option<string>,
    fact: Option<string>, repo: Option<string>, attributes: Attributes,
    validAt: Option<Time>, invalidAt: Option<Time>, expiredAt: Option<Time>)

  datatype Edge = Edge(
    sourceId: string, targetId: string, relation: string, fact: string, repo: Option<string>,
    attributes: Attributes, validAt: Time, invalidAt: Option<Time>, expiredAt: Option<Time>)

  datatype Row = NodeOf(node: NodeRow) | EdgeOf(edge: EdgeRow)

  datatype Replica = Replica(nodes: map<string, Node>, edges: map<string, Edge>)

  predicate CompleteNode(r: NodeRow) {
    r.id.Some? && r.kind.Some? && r.name.Some? && r.naturalKey.Some?
  }

  predicate CompleteEdge(r: EdgeRow) {
    r.id.Some? && r.sourceId.Some? && r.targetId.Some? && r.relation.Some? && r.fact.Some?
  }

  /** The row as an INSERT would store it; `now` stands in for a missing first-seen time. */
  function NewNode(r: NodeRow, now: Time): Node
    requires CompleteNode(r)
  {
    var firstSeen := if r.firstSeenAt.Some? then r.firstSeenAt.value else now;
    var lastConfirmed := if r.lastConfirmedAt.Some? then r.lastConfirmedAt.value else firstSeen;
    var searchText := if r.searchText.Some? then r.searchText.value else r.name.value + " " + r.naturalKey.value;
    Node(r.kind.value, r.name.value, r.naturalKey.value, r.repo, r.summary, searchText, r.attributes,
         firstSeen, lastConfirmed, r.deletedAt)
  }

  /** ON CONFLICT (id) DO UPDATE. */
  function MergeNode(old_: Node, new_: Node): Node {
    old_.(name := new_.name, repo := Coalesce(new_.repo, old_.repo), summary := Coalesce(new_.summary, old_.summary),
          searchText := new_.searchText, attributes := old_.attributes + new_.attributes,
          firstSeenAt := Min(old_.firstSeenAt, new_.firstSeenAt),
          lastConfirmedAt := Max(old_.lastConfirmedAt, new_.lastConfirmedAt),
          deletedAt := Least(old_.deletedAt, new_.deletedAt))
  }

  function NewEdge(r: EdgeRow, now: Time): Edge
    requires CompleteEdge(r)
  {
    Edge(r.sourceId.value, r.targetId.value, r.relation.value, r.fact.value, r.repo, r.attributes,
         if r.validAt.Some? then r.validAt.value else now, r.invalidAt, r.expiredAt)
  }

  /** ON CONFLICT DO NOTHING, then the two guarded LEAST updates. */
  function MergeEdge(old_: Edge, r: EdgeRow): Edge {
    old_.(invalidAt := Least(old_.invalidAt, r.invalidAt), expiredAt := Least(old_.expiredAt, r.expiredAt))
  }

  function Apply(db: Replica, row: Row, now: Time): Replica {
    match row
    case NodeOf(r) =>
      if !CompleteNode(r) then db
      else
        var id, n := r.id.value, NewNode(r, now);
        db.(nodes := db.nodes[id := if id in db.nodes then MergeNode(db.nodes[id], n) else n])
    case EdgeOf(r) =>
      if !CompleteEdge(r) then db
      else
        var id := r.id.value;
        var e := if id in db.edges then db.edges[id] else NewEdge(r, now);
        db.(edges := db.edges[id := MergeEdge(e, r)])
  }

  // ----- what the replica must agree on -----

  datatype NodeTimes = NodeTimes(firstSeenAt: Time, lastConfirmedAt: Time, deletedAt: Option<Time>)
  datatype EdgeTimes = EdgeTimes(invalidAt: Option<Time>, expiredAt: Option<Time>)

  /** Which nodes and edges exist, and their bitemporal columns. */
  datatype Timeline = Timeline(nodes: map<string, NodeTimes>, edges: map<string, EdgeTimes>)

  function TimesOf(n: Node): NodeTimes { NodeTimes(n.firstSeenAt, n.lastConfirmedAt, n.deletedAt) }

  function EdgeTimesOf(e: Edge): EdgeTimes { EdgeTimes(e.invalidAt, e.expiredAt) }

  function NodeTimesIn(nodes: map<string, Node>): map<string, NodeTimes> {
    map id | id in nodes :: TimesOf(nodes[id])
  }

  function EdgeTimesIn(edges: map<string, Edge>): map<string, EdgeTimes> {
    map id | id in edges :: EdgeTimesOf(edges[id])
  }

  function TimelineOf(db: Replica): Timeline {
    Timeline(NodeTimesIn(db.nodes), EdgeTimesIn(db.edges))
  }

  function JoinNode(a: NodeTimes, b: NodeTimes): NodeTimes {
    NodeTimes(Min(a.firstSeenAt, b.firstSeenAt), Max(a.lastConfirmedAt, b.lastConfirmedAt),
              Least(a.deletedAt, b.deletedAt))
  }

  function JoinEdge(a: EdgeTimes, b: EdgeTimes): EdgeTimes {
    EdgeTimes(Least(a.invalidAt, b.invalidAt), Least(a.expiredAt, b.expiredAt))
  }

  /** The union of two maps, with `f` where both have a value. */
  function JoinMaps<V>(f: (V, V) -> V, a: map<string, V>, b: map<string, V>): map<string, V> {
    map id | id in a.Keys + b.Keys :: if id !in b then a[id] else if id !in a then b[id] else f(a[id], b[id])
  }

  ghost predicate Semilattice<V(!new)>(f: (V, V) -> V) {
    && (forall x, y :: f(x, y) == f(y, x))
    && (forall x, y, z :: f(f(x, y), z) == f(x, f(y, z)))
    && (forall x :: f(x, x) == x)
  }

  lemma JoinMapsAssociates<V(!new)>(f: (V, V) -> V, a: map<string, V>, b: map<string, V>, c: map<string, V>)
    requires Semilattice(f)
    ensures JoinMaps(f, JoinMaps(f, a, b), c) == JoinMaps(f, a, JoinMaps(f, b, c))
  {
    var left, right := JoinMaps(f, JoinMaps(f, a, b), c), JoinMaps(f, a, JoinMaps(f, b, c));
    assert left.Keys == right.Keys == a.Keys + b.Keys + c.Keys;
    forall id | id in left ensures left[id] == right[id] {
      assert id in JoinMaps(f, a, b) <==> id in a || id in b;
      assert id in JoinMaps(f, b, c) <==> id in b || id in c;
    }
  }

  lemma JoinMapsCommutes<V(!new)>(f: (V, V) -> V, a: map<string, V>, b: map<string, V>)
    requires Semilattice(f)
    ensures JoinMaps(f, a, b) == JoinMaps(f, b, a)
  {
  }

  lemma JoinMapsLaws<V(!new)>(f: (V, V) -> V, a: map<string, V>, b: map<string, V>, c: map<string, V>)
    requires Semilattice(f)
    ensures JoinMaps(f, a, b) == JoinMaps(f, b, a)
    ensures JoinMaps(f, JoinMaps(f, a, b), c) == JoinMaps(f, a, JoinMaps(f, b, c))
    ensures JoinMaps(f, a, a) == a && JoinMaps(f, a, map[]) == a
  {
    JoinMapsCommutes(f, a, b);
    JoinMapsAssociates(f, a, b, c);
  }

  /** The join of two timelines: what both deliveries say together. */
  function Join(a: Timeline, b: Timeline): Timeline {
    Timeline(JoinMaps(JoinNode, a.nodes, b.nodes), JoinMaps(JoinEdge, a.edges, b.edges))
  }

  lemma JoinLaws(a: Timeline, b: Timeline, c: Timeline)
    ensures Join(a, b) == Join(b, a)
    ensures Join(Join(a, b), c) == Join(a, Join(b, c))
    ensures Join(a, a) == a && Join(a, NOTHING) == a
  {
    JoinMapsLaws(JoinNode, a.nodes, b.nodes, c.nodes);
    JoinMapsLaws(JoinEdge, a.edges, b.edges, c.edges);
  }

  const NOTHING := Timeline(map[], map[])

  /** What a row alone says. A node row without a first-seen time has no fixed
      content, as the local clock fills it in. */
  function Says(row: Row, now: Time): Timeline {
    match row
    case NodeOf(r) =>
      if CompleteNode(r) then Timeline(map[r.id.value := TimesOf(NewNode(r, now))], map[]) else NOTHING
    case EdgeOf(r) =>
      if CompleteEdge(r) then Timeline(map[], map[r.id.value := EdgeTimes(r.invalidAt, r.expiredAt)]) else NOTHING
  }

  predicate Explicit(row: Row) {
    row.NodeOf? && CompleteNode(row.node) ==> row.node.firstSeenAt.Some?
  }

  lemma PutNode(nodes: map<string, Node>, id: string, n: Node)
    ensures NodeTimesIn(nodes[id := if id in nodes then MergeNode(nodes[id], n) else n])
         == JoinMaps(JoinNode, NodeTimesIn(nodes), map[id := TimesOf(n)])
  {
  }

  lemma PutEdge(edges: map<string, Edge>, id: string, r: EdgeRow, e: Edge)
    requires e == (if id in edges then edges[id] else e)
    requires id in edges || (e.invalidAt == r.invalidAt && e.expiredAt == r.expiredAt)
    ensures EdgeTimesIn(edges[id := MergeEdge(e, r)])
         == JoinMaps(JoinEdge, EdgeTimesIn(edges), map[id := EdgeTimes(r.invalidAt, r.expiredAt)])
  {
  }

  /** Merging a row joins what it says to the timeline. */
  lemma ApplyJoins(db: Replica, row: Row, now: Time)
    ensures TimelineOf(Apply(db, row, now)) == Join(TimelineOf(db), Says(row, now))
  {
    JoinLaws(TimelineOf(db), NOTHING, NOTHING);
    match row
    case NodeOf(r) =>
      if CompleteNode(r) { PutNode(db.nodes, r.id.value, NewNode(r, now)); }
    case EdgeOf(r) =>
      if CompleteEdge(r) {
        var id := r.id.value;
        PutEdge(db.edges, id, r, if id in db.edges then db.edges[id] else NewEdge(r, now));
      }
  }

  // ----- deliveries -----

  /** A row with the local time at which it is merged. */
  datatype Arrival = Arrival(row: Row, at: Time)

  function Deliver(db: Replica, arrivals: seq<Arrival>): Replica {
    if arrivals == [] then db
    else Apply(Deliver(db, arrivals[..|arrivals| - 1]), arrivals[|arrivals| - 1].row, arrivals[|arrivals| - 1].at)
  }

  ghost predicate AllExplicit(arrivals: seq<Arrival>) {
    forall a :: a in arrivals ==> Explicit(a.row)
  }

  /** Everything `row` says is already in the timeline of a replica that got it. */
  lemma {:induction false} DeliveredIsIn(db: Replica, arrivals: seq<Arrival>, row: Row, now: Time)
    requires AllExplicit(arrivals) && exists a :: a in arrivals && a.row == row
    ensures Join(TimelineOf(Deliver(db, arrivals)), Says(row, now)) == TimelineOf(Deliver(db, arrivals))
  {
    var init, last := arrivals[..|arrivals| - 1], arrivals[|arrivals| - 1];
    var t, m, x := TimelineOf(Deliver(db, init)), Says(last.row, last.at), Says(row, now);
    ApplyJoins(Deliver(db, init), last.row, last.at);
    assert arrivals == init + [last];
    if last.row == row {
      assert m == x;
      JoinLaws(t, x, x);
      JoinLaws(x, x, x);
    } else {
      DeliveredIsIn(db, init, row, now);
      JoinLaws(t, m, x);
      JoinLaws(t, x, m);
      JoinLaws(m, x, x);
    }
  }

  lemma {:induction false} DeliverMore(db: Replica, a: seq<Arrival>, b: seq<Arrival>)
    requires AllExplicit(a) && AllExplicit(b)
    requires forall x :: x in b ==> exists y :: y in a && y.row == x.row
    ensures Join(TimelineOf(Deliver(db, a)), TimelineOf(Deliver(db, b))) == TimelineOf(Deliver(db, a))
  {
    var ta := TimelineOf(Deliver(db, a));
    if b == [] {
      StartIsIn(db, a);
    } else {
      var init, last := b[..|b| - 1], b[|b| - 1];
      assert b == init + [last];
      DeliverMore(db, a, init);
      DeliveredIsIn(db, a, last.row, last.at);
      ApplyJoins(Deliver(db, init), last.row, last.at);
      JoinLaws(ta, TimelineOf(Deliver(db, init)), Says(last.row, last.at));
    }
  }

  lemma {:induction false} StartIsIn(db: Replica, a: seq<Arrival>)
    ensures Join(TimelineOf(Deliver(db, a)), TimelineOf(db)) == TimelineOf(Deliver(db, a))
  {
    if a == [] {
      JoinLaws(TimelineOf(db), TimelineOf(db), TimelineOf(db));
    } else {
      var init, last := a[..|a| - 1], a[|a| - 1];
      var t, m := TimelineOf(Deliver(db, init)), Says(last.row, last.at);
      StartIsIn(db, init);
      ApplyJoins(Deliver(db, init), last.row, last.at);
      JoinLaws(t, m, TimelineOf(db));
      JoinLaws(t, TimelineOf(db), m);
      JoinLaws(m, TimelineOf(db), m);
    }
  }

  /** Two replicas that start alike and receive the same set of rows, in any
      order, any number of times and at any local times, agree on which nodes
      and edges exist and on their times. */
  lemma DeliveriesConverge(db: Replica, a: seq<Arrival>, b: seq<Arrival>)
    requires AllExplicit(a) && AllExplicit(b)
    requires forall x :: x in b ==> exists y :: y in a && y.row == x.row
    requires forall x :: x in a ==> exists y :: y in b && y.row == x.row
    ensures TimelineOf(Deliver(db, a)) == TimelineOf(Deliver(db, b))
  {
    DeliverMore(db, a, b);
    DeliverMore(db, b, a);
    JoinLaws(TimelineOf(Deliver(db, a)), TimelineOf(Deliver(db, b)), NOTHING);
  }

  // ----- rows without a first-seen time -----

  /** The rows that arrive are these, in any order and number. */
  ghost predicate Delivers(a: seq<Arrival>, rows: seq<Row>) {
    forall row :: row in rows <==> exists x :: x in a && x.row == row
  }

  /** However the rows are delivered to `db`, the timeline is the same. */
  ghost predicate Converges(db: Replica, rows: seq<Row>) {
    forall a, b :: Delivers(a, rows) && Delivers(b, rows) ==> TimelineOf(Deliver(db, a)) == TimelineOf(Deliver(db, b))
  }

  /** All rows at one time. */
  ghost function At(rows: seq<Row>, now: Time): (a: seq<Arrival>)
    ensures |a| == |rows| && forall i :: 0 <= i < |rows| ==> a[i] == Arrival(rows[i], now)
  {
    seq(|rows|, i requires 0 <= i < |rows| => Arrival(rows[i], now))
  }

  lemma Arrives(rows: seq<Row>, now: Time, row: Row) returns (y: Arrival)
    requires row in rows
    ensures y in At(rows, now) && y.row == row
  {
    var i :| 0 <= i < |rows| && rows[i] == row;
    y := At(rows, now)[i];
  }

  lemma AtDelivers(rows: seq<Row>, now: Time)
    ensures Delivers(At(rows, now), rows)
  {
    forall row | row in rows ensures exists x :: x in At(rows, now) && x.row == row {
      var _ := Arrives(rows, now, row);
    }
  }

  /** What an arrival says is in the timeline from then on. */
  lemma {:induction false} ArrivalIsIn(db: Replica, arrivals: seq<Arrival>, x: Arrival)
    requires x in arrivals
    ensures Join(TimelineOf(Deliver(db, arrivals)), Says(x.row, x.at)) == TimelineOf(Deliver(db, arrivals))
  {
    var init, last := arrivals[..|arrivals| - 1], arrivals[|arrivals| - 1];
    var t, m, s := TimelineOf(Deliver(db, init)), Says(last.row, last.at), Says(x.row, x.at);
    ApplyJoins(Deliver(db, init), last.row, last.at);
    assert arrivals == init + [last];
    if x == last {
      JoinLaws(t, s, s);
      JoinLaws(s, s, s);
    } else {
      ArrivalIsIn(db, init, x);
      JoinLaws(t, m, s);
      JoinLaws(t, s, m);
      JoinLaws(m, s, s);
    }
  }

  /** A node is first seen no later than a row of it arrives that does not say when. */
  lemma ImplicitIsSeen(db: Replica, rows: seq<Row>, row: Row, now: Time)
    requires row in rows && !Explicit(row)
    ensures var nodes := TimelineOf(Deliver(db, At(rows, now))).nodes;
      row.node.id.value in nodes && nodes[row.node.id.value].firstSeenAt <= now
  {
    var x := Arrives(rows, now, row);
    var t := TimelineOf(Deliver(db, At(rows, now)));
    ArrivalIsIn(db, At(rows, now), x);
    assert Says(row, now).nodes[row.node.id.value].firstSeenAt == now;
    assert Join(t, Says(row, now)).nodes == t.nodes;
  }

  lemma DeliveredAlso(a: seq<Arrival>, b: seq<Arrival>, rows: seq<Row>)
    requires Delivers(a, rows) && Delivers(b, rows) && forall row :: row in rows ==> Explicit(row)
    ensures AllExplicit(b) && forall x :: x in b ==> exists y :: y in a && y.row == x.row
  {
    forall x | x in b ensures Explicit(x.row) && exists y :: y in a && y.row == x.row {
      assert x.row in rows;
    }
  }

  /** For every replica and all rows: their deliveries, in any order and number
      and at any local times, all give the same timeline exactly when every
      complete node row says when its node was first seen. */
  lemma ConvergeIffExplicit(db: Replica, rows: seq<Row>)
    ensures Converges(db, rows) <==> forall row :: row in rows ==> Explicit(row)
  {
    if forall row :: row in rows ==> Explicit(row) {
      forall a, b | Delivers(a, rows) && Delivers(b, rows)
        ensures TimelineOf(Deliver(db, a)) == TimelineOf(Deliver(db, b))
      {
        DeliveredAlso(a, b, rows);
        DeliveredAlso(b, a, rows);
        DeliveriesConverge(db, a, b);
      }
    } else {
      var row :| row in rows && !Explicit(row);
      var id := row.node.id.value;
      ImplicitIsSeen(db, rows, row, 0);
      var seen := TimelineOf(Deliver(db, At(rows, 0))).nodes[id].firstSeenAt;
      ImplicitIsSeen(db, rows, row, seen - 1);
      AtDelivers(rows, 0);
      AtDelivers(rows, seen - 1);
    }
  }

  /** No row revives an edge: an invalidated or expired edge stays so, at its time or earlier. */
  predicate NotLater(a: Option<Time>, b: Option<Time>) {
    b.Some? ==> a.Some? && a.value <= b.value
  }

  lemma {:induction false} NeverRevived(db: Replica, arrivals: seq<Arrival>, id: string)
    requires id in db.edges
    ensures id in Deliver(db, arrivals).edges
    ensures NotLater(Deliver(db, arrivals).edges[id].invalidAt, db.edges[id].invalidAt)
    ensures NotLater(Deliver(db, arrivals).edges[id].expiredAt, db.edges[id].expiredAt)
  {
    if arrivals != [] { NeverRevived(db, arrivals[..|arrivals| - 1], id); }
  }

  // ----- the other columns -----

  /** A row of a known node or edge changes it alone; an incomplete row changes nothing. */
  lemma ApplyTouches(db: Replica, row: Row, now: Time, id: string)
    ensures var t := Apply(db, row, now);
      && (id in db.nodes ==> id in t.nodes) && (id in db.edges ==> id in t.edges)
      && (!(row.NodeOf? && row.node.id == Some(id) && row.node.kind.Some? && row.node.name.Some?
            && row.node.naturalKey.Some?) ==>
          (id in t.nodes <==> id in db.nodes) && (id in db.nodes ==> t.nodes[id] == db.nodes[id]))
      && (!(row.EdgeOf? && row.edge.id == Some(id) && row.edge.sourceId.Some? && row.edge.targetId.Some?
            && row.edge.relation.Some? && row.edge.fact.Some?) ==>
          (id in t.edges <==> id in db.edges) && (id in db.edges ==> t.edges[id] == db.edges[id]))
  {
  }

  /** The last complete row of a node among those that arrived. */
  function LastOf(arrivals: seq<Arrival>, id: string): (r: Option<NodeRow>)
    ensures r.Some? ==> CompleteNode(r.value) && r.value.id.value == id
  {
    if arrivals == [] then None
    else
      var last := arrivals[|arrivals| - 1].row;
      if last.NodeOf? && CompleteNode(last.node) && last.node.id.value == id then Some(last.node)
      else LastOf(arrivals[..|arrivals| - 1], id)
  }

  /** The first complete row of an edge, with the time at which it arrived. */
  function FirstOf(arrivals: seq<Arrival>, id: string): (r: Option<(EdgeRow, Time)>)
    ensures r.Some? ==> CompleteEdge(r.value.0) && r.value.0.id.value == id
  {
    if arrivals == [] then None
    else
      var before, last := FirstOf(arrivals[..|arrivals| - 1], id), arrivals[|arrivals| - 1];
      if before.Some? then before
      else if last.row.EdgeOf? && CompleteEdge(last.row.edge) && last.row.edge.id.value == id then
        Some((last.row.edge, last.at))
      else None
  }

  function FirstNode(arrivals: seq<Arrival>, id: string): (r: Option<NodeRow>)
    ensures r.Some? ==> CompleteNode(r.value) && r.value.id.value == id
  {
    if arrivals == [] then None
    else
      var before, last := FirstNode(arrivals[..|arrivals| - 1], id), arrivals[|arrivals| - 1].row;
      if before.Some? then before
      else if last.NodeOf? && CompleteNode(last.node) && last.node.id.value == id then Some(last.node)
      else None
  }

  /** The last value of an optional column among the complete rows of a node. */
  function LastGiven(arrivals: seq<Arrival>, id: string, column: NodeRow -> Option<string>): Option<string> {
    if arrivals == [] then None
    else
      var last := arrivals[|arrivals| - 1].row;
      if last.NodeOf? && CompleteNode(last.node) && last.node.id.value == id && column(last.node).Some?
      then column(last.node) else LastGiven(arrivals[..|arrivals| - 1], id, column)
  }

  /** All attributes that its rows gave, a later value over an earlier one. */
  function AllGiven(before: Attributes, arrivals: seq<Arrival>, id: string): Attributes {
    if arrivals == [] then before
    else
      var last, given := arrivals[|arrivals| - 1].row, AllGiven(before, arrivals[..|arrivals| - 1], id);
      if last.NodeOf? && CompleteNode(last.node) && last.node.id.value == id
      then given + last.node.attributes else given
  }

  function RepoOf(r: NodeRow): Option<string> { r.repo }
  function SummaryOf(r: NodeRow): Option<string> { r.summary }

  /** A node exists exactly if it did or a complete row of it arrived, and its name and
      search text are those of the last such row. */
  lemma {:induction false} NodeFollowsLast(db: Replica, arrivals: seq<Arrival>, id: string)
    ensures var t, last := Deliver(db, arrivals), LastOf(arrivals, id);
      && (id in t.nodes <==> id in db.nodes || last.Some?)
      && (last == None && id in db.nodes ==> t.nodes[id] == db.nodes[id])
      && (last.Some? ==>
          var r := last.value;
          && t.nodes[id].name == r.name.value
          && t.nodes[id].searchText ==
               if r.searchText.Some? then r.searchText.value else r.name.value + " " + r.naturalKey.value)
  {
    if arrivals != [] {
      var init, last := arrivals[..|arrivals| - 1], arrivals[|arrivals| - 1];
      NodeFollowsLast(db, init, id);
      ApplyTouches(Deliver(db, init), last.row, last.at, id);
    }
  }

  /** Its repository and summary are the last that were given, or what they were; its
      attributes all that were given over what they were. */
  lemma {:induction false} NodeKeepsGiven(db: Replica, arrivals: seq<Arrival>, id: string)
    requires id in Deliver(db, arrivals).nodes
    ensures var n := Deliver(db, arrivals).nodes[id];
      var repo, summary := LastGiven(arrivals, id, RepoOf), LastGiven(arrivals, id, SummaryOf);
      && n.repo == (if repo.Some? then repo else if id in db.nodes then db.nodes[id].repo else None)
      && n.summary == (if summary.Some? then summary else if id in db.nodes then db.nodes[id].summary else None)
      && n.attributes == AllGiven(if id in db.nodes then db.nodes[id].attributes else map[], arrivals, id)
  {
    if arrivals != [] {
      var init, last := arrivals[..|arrivals| - 1], arrivals[|arrivals| - 1];
      ApplyTouches(Deliver(db, init), last.row, last.at, id);
      if id in Deliver(db, init).nodes { NodeKeepsGiven(db, init, id); } else { NoneGiven(db, init, id); }
    }
  }

  lemma {:induction false} NoneGiven(db: Replica, arrivals: seq<Arrival>, id: string)
    requires id !in Deliver(db, arrivals).nodes
    ensures LastGiven(arrivals, id, RepoOf) == LastGiven(arrivals, id, SummaryOf) == None
    ensures AllGiven(map[], arrivals, id) == map[] && FirstNode(arrivals, id) == None && id !in db.nodes
  {
    if arrivals != [] {
      var init, last := arrivals[..|arrivals| - 1], arrivals[|arrivals| - 1];
      ApplyTouches(Deliver(db, init), last.row, last.at, id);
      NoneGiven(db, init, id);
    }
  }

  /** Its kind and natural key stay what they were, or as the first row gave them. */
  lemma {:induction false} NodeIsFirst(db: Replica, arrivals: seq<Arrival>, id: string)
    requires id in Deliver(db, arrivals).nodes
    ensures var n, first := Deliver(db, arrivals).nodes[id], FirstNode(arrivals, id);
      if id in db.nodes then n.kind == db.nodes[id].kind && n.naturalKey == db.nodes[id].naturalKey
      else first.Some? && n.kind == first.value.kind.value && n.naturalKey == first.value.naturalKey.value
  {
    if arrivals != [] {
      var init, last := arrivals[..|arrivals| - 1], arrivals[|arrivals| - 1];
      ApplyTouches(Deliver(db, init), last.row, last.at, id);
      if id in Deliver(db, init).nodes { NodeIsFirst(db, init, id); } else { NoneGiven(db, init, id); }
    }
  }

  /** An edge exists exactly if it did or a complete row of it arrived, and apart from
      its end times it stays what it was, or as its first row gave it. */
  lemma {:induction false} EdgeIsFirst(db: Replica, arrivals: seq<Arrival>, id: string)
    ensures var t, first := Deliver(db, arrivals), FirstOf(arrivals, id);
      && (id in t.edges <==> id in db.edges || first.Some?)
      && (id in t.edges ==>
          var e := t.edges[id];
          if id in db.edges then
            var d := db.edges[id];
            e == d.(invalidAt := e.invalidAt, expiredAt := e.expiredAt)
          else
            var (r, at) := first.value;
            e == Edge(r.sourceId.value, r.targetId.value, r.relation.value, r.fact.value, r.repo, r.attributes,
                      if r.validAt.Some? then r.validAt.value else at, e.invalidAt, e.expiredAt))
  {
    if arrivals != [] {
      var init, last := arrivals[..|arrivals| - 1], arrivals[|arrivals| - 1];
      EdgeIsFirst(db, init, id);
      ApplyTouches(Deliver(db, init), last.row, last.at, id);
    }
  }

  function Earlier(a: Option<Time>, b: Option<Time>): Option<Time> {
    if a == None || (b.Some? && b.value < a.value) then b else a
  }

  function EdgeColumn(x: Arrival, id: string, column: EdgeRow -> Option<Time>): Option<Time> {
    if x.row.EdgeOf? && CompleteEdge(x.row.edge) && x.row.edge.id.value == id then column(x.row.edge) else None
  }

  /** The earliest time that the complete rows of an edge gave in a column. */
  function EarliestGiven(before: Option<Time>, arrivals: seq<Arrival>, id: string, column: EdgeRow -> Option<Time>):
    Option<Time>
  {
    if arrivals == [] then before
    else
      Earlier(EarliestGiven(before, arrivals[..|arrivals| - 1], id, column),
              EdgeColumn(arrivals[|arrivals| - 1], id, column))
  }

  function InvalidAt(r: EdgeRow): Option<Time> { r.invalidAt }
  function ExpiredAt(r: EdgeRow): Option<Time> { r.expiredAt }

  /** An edge is invalid from the earliest time that it was or any of its complete rows
      gave, and expired likewise. */
  lemma {:induction false} EdgeEndsEarliest(db: Replica, arrivals: seq<Arrival>, id: string)
    requires id in Deliver(db, arrivals).edges
    ensures var e := Deliver(db, arrivals).edges[id];
      var invalid, expired := if id in db.edges then db.edges[id].invalidAt else None,
        if id in db.edges then db.edges[id].expiredAt else None;
      && e.invalidAt == EarliestGiven(invalid, arrivals, id, InvalidAt)
      && e.expiredAt == EarliestGiven(expired, arrivals, id, ExpiredAt)
  {
    if arrivals != [] {
      var init, last := arrivals[..|arrivals| - 1], arrivals[|arrivals| - 1];
      ApplyTouches(Deliver(db, init), last.row, last.at, id);
      if id in Deliver(db, init).edges { EdgeEndsEarliest(db, init, id); } else { NoEdgeGiven(db, init, id); }
    }
  }

  lemma {:induction false} NoEdgeGiven(db: Replica, arrivals: seq<Arrival>, id: string)
    requires id !in Deliver(db, arrivals).edges
    ensures id !in db.edges && EarliestGiven(None, arrivals, id, InvalidAt) == None
    ensures EarliestGiven(None, arrivals, id, ExpiredAt) == None
  {
    if arrivals != [] {
      var init, last := arrivals[..|arrivals| - 1], arrivals[|arrivals| - 1];
      ApplyTouches(Deliver(db, init), last.row, last.at, id);
      NoEdgeGiven(db, init, id);
    }
  }

  function TimesAt(nodes: map<string, Node>, id: string): Option<NodeTimes> {
    if id in nodes then Some(NodeTimes(nodes[id].firstSeenAt, nodes[id].lastConfirmedAt, nodes[id].deletedAt)) else None
  }

  /** The times that the complete rows of a node gave: first seen at the earliest, which
      is the time of arrival if a row does not say; last confirmed at the latest, which
      is the first-seen time if a row does not say; deleted at the earliest. */
  function TimesGiven(before: Option<NodeTimes>, arrivals: seq<Arrival>, id: string): Option<NodeTimes> {
    if arrivals == [] then before
    else
      var t, x := TimesGiven(before, arrivals[..|arrivals| - 1], id), arrivals[|arrivals| - 1];
      if !x.row.NodeOf? || !CompleteNode(x.row.node) || x.row.node.id.value != id then t
      else
        var seen := if x.row.node.firstSeenAt.Some? then x.row.node.firstSeenAt.value else x.at;
        var confirmed := if x.row.node.lastConfirmedAt.Some? then x.row.node.lastConfirmedAt.value else seen;
        match t
        case None => Some(NodeTimes(seen, confirmed, x.row.node.deletedAt))
        case Some(o) =>
          Some(NodeTimes(if seen < o.firstSeenAt then seen else o.firstSeenAt,
                         if confirmed > o.lastConfirmedAt then confirmed else o.lastConfirmedAt,
                         Earlier(o.deletedAt, x.row.node.deletedAt)))
  }

  lemma {:induction false} NodeTimesFollow(db: Replica, arrivals: seq<Arrival>, id: string)
    ensures TimesAt(Deliver(db, arrivals).nodes, id) == TimesGiven(TimesAt(db.nodes, id), arrivals, id)
  {
    if arrivals != [] {
      var init, last := arrivals[..|arrivals| - 1], arrivals[|arrivals| - 1];
      NodeTimesFollow(db, init, id);
      ApplyTouches(Deliver(db, init), last.row, last.at, id);
    }
  }
}
