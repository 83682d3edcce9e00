/** The bounded dependency walk (metadata/reader.go, Read between the two critical sections). */
module MetadataWalk {
  import opened Options
  import opened MetadataGraph

  // ---- what every walk keeps

  ghost predicate Joins(g: Graph, e: Edge) {
    e.from in g.nodes && e.to in g.nodes
  }

  /** What holds of the graph at every point, truncated or not. */
  ghost predicate Sound(db: Catalog, root: Object, maxNodes: nat, g: Graph) {
    && g.root == root && root in g.nodes
    && Distinct(g.nodes) && |g.nodes| <= maxNodes && |g.edges| <= 4 * maxNodes
    && (forall i :: 0 <= i < |g.edges| ==> Joins(g, g.edges[i]) && TrueEdge(db, g.edges[i]))
    && (forall i :: 0 <= i < |g.nodes| ==> Reachable(db, root, g.nodes[i]))
  }

  /** Everything the catalog says about the object is in the graph. */
  ghost predicate Expanded(db: Catalog, g: Graph, o: Object) {
    forall e :: TrueEdge(db, e) && e.from == o ==> e in g.edges && e.to in g.nodes
  }

  /** The graph is exactly what can be reached: every object, and every edge between them. */
  ghost predicate Complete(db: Catalog, root: Object, g: Graph) {
    && (forall o :: o in g.nodes <==> Reachable(db, root, o))
    && (forall e :: e in g.edges <==> TrueEdge(db, e) && Reachable(db, root, e.from))
  }

  /** The scope says whether a packaged routine was met. */
  ghost predicate ScopeOk(g: Graph) {
    g.scope == PackageBody <==> exists o :: o in g.nodes && Packaged(o)
  }

  datatype Item = Item(o: Object, depth: nat)

  /**
   * A point of the walk: the graph and the queue, the objects asked about so far, those that need no more work, the one
   * being asked about, and how many of its rows have been handled.
   */
  datatype Search = Search(
    g: Graph, queue: seq<Item>, asked: seq<Object>, done: seq<Object>, busy: Option<Item>, scanned: nat)
  {
    /** The depth of the object that is asked about, or of the next one. */
    function Level(): nat {
      if busy.Some? then busy.value.depth else if queue != [] then queue[0].depth else 0
    }
  }

  /** The queue holds each object that is still to be asked about once, and none that was. */
  ghost predicate QueueOk(s: Search) {
    && Distinct(s.asked)
    && (forall i :: 0 <= i < |s.asked| ==> s.asked[i] in s.g.nodes)
    && (forall i :: 0 <= i < |s.queue| ==>
      s.queue[i].o in s.g.nodes && s.queue[i].o !in s.asked && !Packaged(s.queue[i].o))
    && (forall i, j :: 0 <= i < j < |s.queue| ==> s.queue[i].o != s.queue[j].o)
    && (s.busy.Some? ==>
      s.busy.value.o in s.g.nodes && !Packaged(s.busy.value.o) && !Queued(s.queue, s.busy.value.o))
  }

  ghost predicate Queued(queue: seq<Item>, o: Object) {
    exists i :: 0 <= i < |queue| && queue[i].o == o
  }

  ghost predicate Busy(s: Search, o: Object) {
    s.busy.Some? && s.busy.value.o == o
  }

  /** Every object met is waiting, being asked about, or done. */
  ghost predicate Covered(s: Search) {
    forall n :: n in s.g.nodes ==> Queued(s.queue, n) || Busy(s, n) || n in s.done
  }

  /** Everything about the object is in the graph, and it is within the limits for one object. */
  ghost predicate Finished(db: Catalog, root: Object, b: Bounds, g: Graph, o: Object) {
    && o in g.nodes && Expanded(db, g, o)
    && (!Packaged(o) ==> |db.Rows(o)| <= b.maxNodes && Within(db, root, o, b.maxDepth - 1))
  }

  /** The edges are those of the objects that are done and of the rows handled since. */
  ghost predicate Accounted(db: Catalog, root: Object, b: Bounds, s: Search) {
    && Distinct(s.done)
    && (forall i :: 0 <= i < |s.done| ==> Finished(db, root, b, s.g, s.done[i]))
    && (forall i :: 0 <= i < |s.queue| ==> s.queue[i].o !in s.done)
    && (s.busy.Some? ==> s.busy.value.o !in s.done && s.busy.value.depth < b.maxDepth)
    && |s.g.edges| == Weigh(db, s.done) + s.scanned
  }

  /** The depth of a waiting object is its distance from the root. */
  ghost predicate Placed(db: Catalog, root: Object, item: Item) {
    Within(db, root, item.o, item.depth) && !Within(db, root, item.o, item.depth - 1)
  }

  /** The queue holds one level of distance after the other, and no more than two. */
  ghost predicate Layered(db: Catalog, root: Object, s: Search) {
    && (s.busy.Some? ==> Placed(db, root, s.busy.value))
    && (forall i :: 0 <= i < |s.queue| ==>
      Placed(db, root, s.queue[i]) && s.Level() <= s.queue[i].depth <= s.Level() + 1)
    && (forall i, j :: 0 <= i < j < |s.queue| ==> s.queue[i].depth <= s.queue[j].depth)
  }

  /** What holds as long as nothing has been cut off. */
  ghost predicate Exact(db: Catalog, root: Object, b: Bounds, s: Search) {
    Covered(s) && Accounted(db, root, b, s) && Layered(db, root, s)
  }

  /** The walk is either exact so far or was cut off with good reason. */
  ghost predicate WalkOk(db: Catalog, root: Object, b: Bounds, s: Search) {
    && Sound(db, root, b.maxNodes, s.g) && ScopeOk(s.g) && QueueOk(s)
    && (if s.g.truncated then Oversized(db, root, b) else Exact(db, root, b, s))
  }

  /** The rows already handled are in the graph. */
  ghost predicate RowsListed(g: Graph, o: Object, rows: seq<Row>, n: nat) {
    n <= |rows| && forall i :: 0 <= i < n ==> RowEdge(o, rows[i]) in g.edges && Target(rows[i]) in g.nodes
  }

  // ---- one dependency row

  /** A packaged routine was found: its body takes its place in the walk. */
  function DiscoverBody(maxNodes: nat, g: Graph, queue: seq<Item>, routine: Object, depth: nat): (Graph, seq<Item>) {
    var broad := g.(scope := PackageBody);
    var body := Body(routine);
    if |g.edges| >= 4 * maxNodes || (body !in g.nodes && |g.nodes| >= maxNodes) then (broad.(truncated := true), queue)
    else
      var linked := broad.(edges := g.edges + [BodyEdge(routine)]);
      if body in g.nodes then (linked, queue)
      else (linked.(nodes := g.nodes + [body]), queue + [Item(body, depth)])
  }

  /** What a row of the object `cur` adds; the last component says that the limit was reached. */
  function Discover(maxNodes: nat, g: Graph, queue: seq<Item>, cur: Item, row: Row): (Graph, seq<Item>, bool) {
    var to := Target(row);
    if |g.edges| >= 4 * maxNodes || (to !in g.nodes && |g.nodes| >= maxNodes) then (g.(truncated := true), queue, true)
    else
      var linked := g.(edges := g.edges + [RowEdge(cur.o, row)]);
      if to in g.nodes then (linked, queue, false)
      else
        var listed := linked.(nodes := g.nodes + [to]);
        if !Packaged(to) then (listed, queue + [Item(to, cur.depth + 1)], false)
        else
          var (broad, longer) := DiscoverBody(maxNodes, listed, queue, to, cur.depth + 1);
          (broad, longer, false)
  }

  ghost predicate Grows(g: Graph, h: Graph) {
    && h.root == g.root && (g.truncated ==> h.truncated)
    && (forall o :: o in g.nodes ==> o in h.nodes) && (forall e :: e in g.edges ==> e in h.edges)
  }

  // ---- soundness

  lemma AddEdge(db: Catalog, root: Object, maxNodes: nat, g: Graph, e: Edge)
    requires Sound(db, root, maxNodes, g) && Joins(g, e) && TrueEdge(db, e) && |g.edges| < 4 * maxNodes
    ensures Sound(db, root, maxNodes, g.(edges := g.edges + [e]))
  {
    hide TrueEdge, Reachable;
  }

  lemma AddNode(db: Catalog, root: Object, maxNodes: nat, g: Graph, o: Object)
    requires Sound(db, root, maxNodes, g) && o !in g.nodes && |g.nodes| < maxNodes && Reachable(db, root, o)
    ensures Sound(db, root, maxNodes, g.(nodes := g.nodes + [o]))
  {
  }

  /** A graph with a truncation mark or another scope is as sound. */
  lemma Remark(db: Catalog, root: Object, maxNodes: nat, g: Graph, h: Graph)
    requires Sound(db, root, maxNodes, g) && h == g.(truncated := h.truncated, scope := h.scope)
    ensures Sound(db, root, maxNodes, h)
  {
  }

  lemma NodeReachable(db: Catalog, root: Object, maxNodes: nat, g: Graph, o: Object)
    requires Sound(db, root, maxNodes, g) && o in g.nodes
    ensures Reachable(db, root, o)
  {
    hide TrueEdge, Reachable;
  }

  lemma BodyEdgeIsTrue(db: Catalog, routine: Object)
    requires Packaged(routine)
    ensures TrueEdge(db, BodyEdge(routine))
  {
  }

  lemma RowEdgeIsTrue(db: Catalog, cur: Object, rows: seq<Row>, i: nat)
    requires rows == db.Rows(cur) && i < |rows| && !Packaged(cur)
    ensures TrueEdge(db, RowEdge(cur, rows[i]))
  {
  }

  lemma BodySound(db: Catalog, root: Object, maxNodes: nat, g: Graph, queue: seq<Item>, routine: Object, depth: nat)
    requires Sound(db, root, maxNodes, g) && routine in g.nodes && Packaged(routine)
    ensures Sound(db, root, maxNodes, DiscoverBody(maxNodes, g, queue, routine, depth).0)
  {
    var body := Body(routine);
    var e := BodyEdge(routine);
    BodyEdgeIsTrue(db, routine);
    NodeReachable(db, root, maxNodes, g, routine);
    StepReachable(db, root, e);
    hide Sound, Reachable, Successor, TrueEdge;
    var h := if body in g.nodes then g else g.(nodes := g.nodes + [body]);
    if |g.edges| < 4 * maxNodes && (body in g.nodes || |g.nodes| < maxNodes) {
      if body !in g.nodes {
        AddNode(db, root, maxNodes, g, body);
      }
      AddEdge(db, root, maxNodes, h, e);
      Remark(db, root, maxNodes, h.(edges := g.edges + [e]), h.(edges := g.edges + [e], scope := PackageBody));
    }
    Remark(db, root, maxNodes, g, g.(scope := PackageBody, truncated := true));
  }

  lemma DiscoverSound(db: Catalog, root: Object, maxNodes: nat, g: Graph, queue: seq<Item>, cur: Item, row: Row)
    requires Sound(db, root, maxNodes, g) && cur.o in g.nodes && TrueEdge(db, RowEdge(cur.o, row))
    ensures Sound(db, root, maxNodes, Discover(maxNodes, g, queue, cur, row).0)
  {
    hide Sound, Reachable, Successor, TrueEdge, DiscoverBody, TrimBlanks;
    var to := Target(row);
    var e := RowEdge(cur.o, row);
    NodeReachable(db, root, maxNodes, g, cur.o);
    StepReachable(db, root, e);
    if |g.edges| < 4 * maxNodes && (to in g.nodes || |g.nodes| < maxNodes) {
      var h := if to in g.nodes then g else g.(nodes := g.nodes + [to]);
      if to !in g.nodes {
        AddNode(db, root, maxNodes, g, to);
      }
      AddEdge(db, root, maxNodes, h, e);
      if to !in g.nodes && Packaged(to) {
        BodySound(db, root, maxNodes, h.(edges := g.edges + [e]), queue, to, cur.depth + 1);
      }
    }
    Remark(db, root, maxNodes, g, g.(truncated := true));
  }

  // ---- exactness: three moves

  lemma ExpandedGrows(db: Catalog, g: Graph, h: Graph, o: Object)
    requires Expanded(db, g, o) && Grows(g, h)
    ensures Expanded(db, h, o)
  {
    hide TrueEdge;
  }

  lemma FinishedGrows(db: Catalog, root: Object, b: Bounds, g: Graph, h: Graph, done: seq<Object>)
    requires Grows(g, h) && forall i :: 0 <= i < |done| ==> Finished(db, root, b, g, done[i])
    ensures forall i :: 0 <= i < |done| ==> Finished(db, root, b, h, done[i])
  {
    hide Expanded, Within, Packaged;
    forall i | 0 <= i < |done| ensures Finished(db, root, b, h, done[i]) {
      ExpandedGrows(db, g, h, done[i]);
    }
  }

  lemma QueuedGrows(queue: seq<Item>, item: Item, o: Object)
    requires Queued(queue, o) || item.o == o
    ensures Queued(queue + [item], o)
  {
    var longer := queue + [item];
    if item.o == o {
      assert longer[|queue|].o == o;
    } else {
      var i :| 0 <= i < |queue| && queue[i].o == o;
      assert longer[i].o == o;
    }
  }

  /** A graph with the same objects: `more` edges of the object that is asked about have been added. */
  lemma Linked(db: Catalog, root: Object, b: Bounds, s: Search, h: Graph, more: nat)
    requires Exact(db, root, b, s) && Grows(s.g, h)
    requires (forall n :: n in h.nodes <==> n in s.g.nodes) && |h.edges| == |s.g.edges| + more
    ensures Exact(db, root, b, s.(g := h, scanned := s.scanned + more))
  {
    hide Placed, Finished, Queued;
    FinishedGrows(db, root, b, s.g, h, s.done);
  }

  /** A new object has a distance one greater than that of the object that leads to it. */
  lemma NewIsFarther(db: Catalog, root: Object, b: Bounds, s: Search, o: Object)
    requires Exact(db, root, b, s) && QueueOk(s) && s.busy.Some? && root in s.g.nodes && o !in s.g.nodes
    ensures !Within(db, root, o, s.busy.value.depth)
  {
    hide Within, TrueEdge, Packaged;
    var n: int := s.busy.value.depth;
    forall m | m in s.g.nodes
      ensures NotNearer(db, root, m, n) || forall x :: Successor(db, m, x) ==> x in s.g.nodes
    {
      if Queued(s.queue, m) {
        var i :| 0 <= i < |s.queue| && s.queue[i].o == m;
        Farther(db, root, m, n - 1, s.queue[i].depth - 1);
      } else if m in s.done {
        assert Expanded(db, s.g, m);
      }
    }
    if Within(db, root, o, n) {
      Frontier(db, root, s.g.nodes, n, o);
    }
  }

  lemma Farther(db: Catalog, root: Object, o: Object, n: int, m: int)
    requires !Within(db, root, o, m) && n <= m
    ensures !Within(db, root, o, n)
  {
  }

  /** A new object takes its place at the end of the queue. */
  lemma Pushed(db: Catalog, root: Object, b: Bounds, s: Search, h: Graph, o: Object)
    requires Exact(db, root, b, s) && Grows(s.g, h) && s.busy.Some?
    requires o !in s.g.nodes && Placed(db, root, Item(o, s.busy.value.depth + 1))
    requires (forall n :: n in h.nodes <==> n in s.g.nodes || n == o) && |h.edges| == |s.g.edges|
    ensures Exact(db, root, b, s.(g := h, queue := s.queue + [Item(o, s.busy.value.depth + 1)]))
  {
    hide Placed, Finished, Queued;
    FinishedGrows(db, root, b, s.g, h, s.done);
    assert forall i :: 0 <= i < |s.done| ==> s.done[i] in s.g.nodes by { DoneMet(db, root, b, s); }
    var item := Item(o, s.busy.value.depth + 1);
    var longer := s.queue + [item];
    forall n | n in h.nodes ensures Queued(longer, n) || Busy(s, n) || n in s.done {
      if n == o || Queued(s.queue, n) {
        QueuedGrows(s.queue, item, n);
      }
    }
  }

  lemma DoneMet(db: Catalog, root: Object, b: Bounds, s: Search)
    requires Accounted(db, root, b, s)
    ensures forall i :: 0 <= i < |s.done| ==> s.done[i] in s.g.nodes
  {
    hide Expanded, Within;
  }

  lemma RoutineExpanded(db: Catalog, g: Graph, routine: Object)
    requires Packaged(routine) && BodyEdge(routine) in g.edges && Body(routine) in g.nodes
    ensures Expanded(db, g, routine)
  {
  }

  /** A new routine of a package is done at once: its one edge leads to the package body. */
  lemma Settled(db: Catalog, root: Object, b: Bounds, s: Search, h: Graph, routine: Object)
    requires Exact(db, root, b, s) && QueueOk(s) && Grows(s.g, h) && Packaged(routine) && routine !in s.g.nodes
    requires (forall n :: n in h.nodes <==> n in s.g.nodes || n == routine) && |h.edges| == |s.g.edges| + 1
    requires BodyEdge(routine) in h.edges && Body(routine) in h.nodes
    ensures Exact(db, root, b, s.(g := h, done := s.done + [routine]))
  {
    hide Placed, Expanded, Queued, Within;
    FinishedGrows(db, root, b, s.g, h, s.done);
    RoutineExpanded(db, h, routine);
    DoneMet(db, root, b, s);
    WeighAppend(db, s.done, routine);
  }

  // ---- one row, nothing cut off

  /** The routine a row introduces, which is done as soon as it is met. */
  function NewRoutine(g: Graph, row: Row): seq<Object> {
    var to := Target(row);
    if to !in g.nodes && Packaged(to) then [to] else []
  }

  /** The search after one more row of the object that is asked about. */
  function AfterRow(maxNodes: nat, s: Search, row: Row): Search
    requires s.busy.Some?
  {
    var (g, queue, _) := Discover(maxNodes, s.g, s.queue, s.busy.value, row);
    s.(g := g, queue := queue, done := s.done + NewRoutine(s.g, row), scanned := s.scanned + 1)
  }

  lemma TargetPlaced(db: Catalog, root: Object, b: Bounds, s: Search, row: Row)
    requires Exact(db, root, b, s) && QueueOk(s) && s.busy.Some? && root in s.g.nodes
    requires TrueEdge(db, RowEdge(s.busy.value.o, row)) && Target(row) !in s.g.nodes
    ensures Placed(db, root, Item(Target(row), s.busy.value.depth + 1))
  {
    hide TrueEdge, Within, TrimBlanks, Covered, Accounted;
    StepWithin(db, root, RowEdge(s.busy.value.o, row), s.busy.value.depth);
    NewIsFarther(db, root, b, s, Target(row));
  }

  lemma BodyPlaced(db: Catalog, root: Object, b: Bounds, s: Search, row: Row)
    requires Exact(db, root, b, s) && QueueOk(s) && s.busy.Some? && root in s.g.nodes
    requires TrueEdge(db, RowEdge(s.busy.value.o, row)) && Target(row) !in s.g.nodes
    requires Packaged(Target(row)) && Body(Target(row)) !in s.g.nodes
    ensures Placed(db, root, Item(Body(Target(row)), s.busy.value.depth + 1))
  {
    hide TrueEdge, Within, TrimBlanks, Covered, Accounted;
    TargetPlaced(db, root, b, s, row);
    BodyEdgeIsTrue(db, Target(row));
    StepWithin(db, root, BodyEdge(Target(row)), s.busy.value.depth + 1);
    NewIsFarther(db, root, b, s, Body(Target(row)));
  }

  lemma RowExact(db: Catalog, root: Object, b: Bounds, s: Search, row: Row)
    requires Exact(db, root, b, s) && QueueOk(s) && s.busy.Some? && root in s.g.nodes && !s.g.truncated
    requires TrueEdge(db, RowEdge(s.busy.value.o, row))
    requires !AfterRow(b.maxNodes, s, row).g.truncated
    ensures Exact(db, root, b, AfterRow(b.maxNodes, s, row))
  {
    hide Exact, QueueOk, TrueEdge, Placed, TrimBlanks, DiscoverBody;
    var to := Target(row);
    var linked := s.g.(edges := s.g.edges + [RowEdge(s.busy.value.o, row)]);
    var t := s.(g := linked, scanned := s.scanned + 1);
    Linked(db, root, b, s, linked, 1);
    assert s.done + [] == s.done;
    if to !in s.g.nodes {
      if Packaged(to) {
        RoutineExact(db, root, b, s, row);
      } else {
        TargetPlaced(db, root, b, s, row);
        Pushed(db, root, b, t, linked.(nodes := linked.nodes + [to]), to);
      }
    }
  }

  lemma RoutineExact(db: Catalog, root: Object, b: Bounds, s: Search, row: Row)
    requires Exact(db, root, b, s) && QueueOk(s) && s.busy.Some? && root in s.g.nodes && !s.g.truncated
    requires TrueEdge(db, RowEdge(s.busy.value.o, row)) && Target(row) !in s.g.nodes && Packaged(Target(row))
    requires !AfterRow(b.maxNodes, s, row).g.truncated
    ensures Exact(db, root, b, AfterRow(b.maxNodes, s, row))
  {
    hide Exact, TrueEdge, Placed, TrimBlanks;
    var to, body := Target(row), Body(Target(row));
    var linked := s.g.(edges := s.g.edges + [RowEdge(s.busy.value.o, row)]);
    var t := s.(g := linked, scanned := s.scanned + 1);
    Linked(db, root, b, s, linked, 1);
    var end := AfterRow(b.maxNodes, s, row);
    if body !in s.g.nodes {
      BodyPlaced(db, root, b, s, row);
      var middle := linked.(nodes := linked.nodes + [body]);
      Pushed(db, root, b, t, middle, body);
      t := t.(g := middle, queue := s.queue + [Item(body, s.busy.value.depth + 1)]);
    }
    Settled(db, root, b, t, end.g, to);
  }

  // ---- the queue

  lemma RowQueue(maxNodes: nat, s: Search, row: Row)
    requires QueueOk(s) && s.busy.Some?
    ensures QueueOk(AfterRow(maxNodes, s, row))
  {
    hide TrimBlanks;
  }

  // ---- cutting off

  lemma NodesReachable(db: Catalog, root: Object, maxNodes: nat, g: Graph, os: seq<Object>)
    requires Sound(db, root, maxNodes, g) && forall i :: 0 <= i < |os| ==> os[i] in g.nodes
    ensures AllReachable(db, root, os)
  {
    hide TrueEdge, Reachable;
  }

  /** The objects met and at least one more do not fit. */
  lemma NodesCut(db: Catalog, root: Object, b: Bounds, g: Graph, more: seq<Object>)
    requires Sound(db, root, b.maxNodes, g) && Distinct(g.nodes + more) && AllReachable(db, root, more)
    requires |g.nodes| + |more| > b.maxNodes
    ensures Oversized(db, root, b)
  {
    hide TrueEdge, Reachable;
    var os := g.nodes + more;
    assert AllReachable(db, root, os);
  }

  /** The rows handled, the next one, and the edges of some new routines do not fit. */
  lemma EdgesCut(db: Catalog, root: Object, b: Bounds, s: Search, more: seq<Object>)
    requires Sound(db, root, b.maxNodes, s.g) && Accounted(db, root, b, s) && QueueOk(s) && s.busy.Some?
    requires |more| <= 1 && AllReachable(db, root, more)
    requires forall i :: 0 <= i < |more| ==> more[i] !in s.g.nodes && Packaged(more[i])
    requires s.scanned < |db.Rows(s.busy.value.o)| && |s.g.edges| + |more| >= 4 * b.maxNodes
    ensures Oversized(db, root, b)
  {
    hide TrueEdge, Reachable, Finished, Packaged, Weigh;
    var cur := s.busy.value.o;
    var some := s.done + [cur];
    DoneMet(db, root, b, s);
    NodesReachable(db, root, b.maxNodes, s.g, some);
    WeighAppend(db, s.done, cur);
    if more == [] {
      assert Distinct(some);
    } else {
      WeighAppend(db, some, more[0]);
      var os := some + [more[0]];
      assert Distinct(os) && AllReachable(db, root, os);
    }
  }

  /** A row that does not fit shows that what can be reached does not fit. */
  lemma RowCut(db: Catalog, root: Object, b: Bounds, s: Search, row: Row)
    requires Sound(db, root, b.maxNodes, s.g) && Accounted(db, root, b, s) && QueueOk(s) && s.busy.Some?
    requires TrueEdge(db, RowEdge(s.busy.value.o, row)) && s.scanned < |db.Rows(s.busy.value.o)| && !s.g.truncated
    requires AfterRow(b.maxNodes, s, row).g.truncated
    ensures Oversized(db, root, b)
  {
    hide TrueEdge, Reachable, Oversized, Accounted, TrimBlanks;
    var to := Target(row);
    NodeReachable(db, root, b.maxNodes, s.g, s.busy.value.o);
    StepReachable(db, root, RowEdge(s.busy.value.o, row));
    if |s.g.edges| >= 4 * b.maxNodes {
      EdgesCut(db, root, b, s, []);
    } else if to !in s.g.nodes {
      if |s.g.nodes| >= b.maxNodes {
        NodesCut(db, root, b, s.g, [to]);
      } else {
        BodyCut(db, root, b, s, to);
      }
    }
  }

  lemma BodyCut(db: Catalog, root: Object, b: Bounds, s: Search, to: Object)
    requires Sound(db, root, b.maxNodes, s.g) && Accounted(db, root, b, s) && QueueOk(s) && s.busy.Some?
    requires s.scanned < |db.Rows(s.busy.value.o)|
    requires Reachable(db, root, to) && to !in s.g.nodes && Packaged(to)
    requires || |s.g.edges| + 1 >= 4 * b.maxNodes
             || (Body(to) !in s.g.nodes && |s.g.nodes| + 1 >= b.maxNodes)
    ensures Oversized(db, root, b)
  {
    hide TrueEdge, Reachable, Oversized, Accounted;
    if |s.g.edges| + 1 >= 4 * b.maxNodes {
      EdgesCut(db, root, b, s, [to]);
    } else {
      BodyEdgeIsTrue(db, to);
      StepReachable(db, root, BodyEdge(to));
      NodesCut(db, root, b, s.g, [to, Body(to)]);
    }
  }

  // ---- one row, whatever happens

  lemma DiscoverScope(maxNodes: nat, g: Graph, queue: seq<Item>, cur: Item, row: Row)
    requires ScopeOk(g)
    ensures ScopeOk(Discover(maxNodes, g, queue, cur, row).0)
  {
  }

  /** A row is put into the graph, or the graph is marked as truncated; nothing listed is ever dropped. */
  lemma DiscoverGrows(maxNodes: nat, g: Graph, queue: seq<Item>, cur: Item, row: Row)
    ensures var (h, longer, stop) := Discover(maxNodes, g, queue, cur, row);
      && Grows(g, h) && (stop ==> h.truncated)
      && (h.truncated || (RowEdge(cur.o, row) in h.edges && Target(row) in h.nodes))
      && |queue| <= |longer| <= |queue| + |h.nodes| - |g.nodes|
  {
  }

  lemma RowKeeps(db: Catalog, root: Object, b: Bounds, s: Search, row: Row)
    requires WalkOk(db, root, b, s) && s.busy.Some? && s.scanned < |db.Rows(s.busy.value.o)|
    requires TrueEdge(db, RowEdge(s.busy.value.o, row))
    ensures WalkOk(db, root, b, AfterRow(b.maxNodes, s, row))
  {
    hide ScopeOk, QueueOk, Discover, TrueEdge, Covered, Accounted, Layered, Oversized;
    assert s.busy.value.o in s.g.nodes && root in s.g.nodes by { BusyMet(db, root, b, s); }
    hide Sound;
    DiscoverSound(db, root, b.maxNodes, s.g, s.queue, s.busy.value, row);
    DiscoverScope(b.maxNodes, s.g, s.queue, s.busy.value, row);
    DiscoverGrows(b.maxNodes, s.g, s.queue, s.busy.value, row);
    RowQueue(b.maxNodes, s, row);
    if !s.g.truncated {
      if AfterRow(b.maxNodes, s, row).g.truncated {
        RowCut(db, root, b, s, row);
      } else {
        RowExact(db, root, b, s, row);
      }
    }
  }

  lemma BusyMet(db: Catalog, root: Object, b: Bounds, s: Search)
    requires Sound(db, root, b.maxNodes, s.g) && QueueOk(s) && s.busy.Some?
    ensures root in s.g.nodes && s.busy.value.o in s.g.nodes && !Packaged(s.busy.value.o)
  {
  }

  /** A truncation mark with good reason. */
  lemma Cut(db: Catalog, root: Object, b: Bounds, s: Search)
    requires WalkOk(db, root, b, s) && Oversized(db, root, b)
    ensures WalkOk(db, root, b, s.(g := s.g.(truncated := true)))
  {
    hide Sound, Exact, Oversized;
    Remark(db, root, b.maxNodes, s.g, s.g.(truncated := true));
  }

  lemma RowsCut(db: Catalog, root: Object, b: Bounds, s: Search)
    requires WalkOk(db, root, b, s) && s.busy.Some? && |db.Rows(s.busy.value.o)| > b.maxNodes
    ensures Oversized(db, root, b)
  {
    hide Exact, TooManyObjects, TooManyEdges, TooDeep, Reachable;
    NodeReachable(db, root, b.maxNodes, s.g, s.busy.value.o);
  }

  lemma DepthCut(db: Catalog, root: Object, b: Bounds, s: Search)
    requires WalkOk(db, root, b, s) && s.queue != [] && s.busy.None? && s.queue[0].depth >= b.maxDepth
    ensures Oversized(db, root, b)
  {
    hide TooManyObjects, TooManyEdges, TooManyRows, Reachable, Within, Covered, Accounted;
    if !s.g.truncated {
      var item := s.queue[0];
      NodeReachable(db, root, b.maxNodes, s.g, item.o);
      assert Placed(db, root, item);
      Farther(db, root, item.o, b.maxDepth - 1, item.depth - 1);
    }
  }

  // ---- the walk

  /** The first `n` rows, as a query that asks for no more returns them. */
  function First(rows: seq<Row>, n: nat): seq<Row> {
    if |rows| <= n then rows else rows[..n]
  }

  method VisitRow(maxNodes: nat, before: Graph, waiting: seq<Item>, cur: Item, row: Row)
    returns (g: Graph, queue: seq<Item>, stop: bool)
    ensures (g, queue, stop) == Discover(maxNodes, before, waiting, cur, row)
  {
    g, queue, stop := before, waiting, false;
    var to := Target(row);
    if |g.edges| >= 4 * maxNodes || (to !in g.nodes && |g.nodes| >= maxNodes) {
      g := g.(truncated := true);
      return g, queue, true;
    }
    g := g.(edges := g.edges + [Edge(cur.o, to, TrimBlanks(row.field), Dependency)]);
    if to !in g.nodes {
      g := g.(nodes := g.nodes + [to]);
      var next := to;
      if Packaged(to) {
        g := g.(scope := PackageBody);
        next := Body(to);
        if |g.edges| >= 4 * maxNodes || (next !in g.nodes && |g.nodes| >= maxNodes) {
          g := g.(truncated := true);
          return;
        }
        g := g.(edges := g.edges + [Edge(to, next, "", PackageBodyScope)]);
        if next in g.nodes {
          return;
        }
        g := g.(nodes := g.nodes + [next]);
      }
      queue := queue + [Item(next, cur.depth + 1)];
    }
  }

  lemma RowsStay(g: Graph, h: Graph, o: Object, rows: seq<Row>, n: nat)
    requires RowsListed(g, o, rows, n) && Grows(g, h) && n < |rows|
    requires RowEdge(o, rows[n]) in h.edges && Target(rows[n]) in h.nodes
    ensures RowsListed(h, o, rows, n + 1)
  {
  }

  /** When every row of an object is listed, the object is done. */
  lemma ObjectDone(db: Catalog, root: Object, b: Bounds, s: Search)
    requires WalkOk(db, root, b, s) && s.busy.Some?
    requires !s.g.truncated ==>
      && |db.Rows(s.busy.value.o)| == s.scanned <= b.maxNodes
      && RowsListed(s.g, s.busy.value.o, db.Rows(s.busy.value.o), s.scanned)
    ensures WalkOk(db, root, b, s.(done := s.done + [s.busy.value.o], busy := None, scanned := 0))
  {
    hide Sound, ScopeOk, Oversized, RowsListed;
    if !s.g.truncated {
      ObjectExact(db, root, b, s);
    }
  }

  lemma ObjectExact(db: Catalog, root: Object, b: Bounds, s: Search)
    requires Exact(db, root, b, s) && QueueOk(s) && s.busy.Some?
    requires |db.Rows(s.busy.value.o)| == s.scanned <= b.maxNodes
    requires RowsListed(s.g, s.busy.value.o, db.Rows(s.busy.value.o), s.scanned)
    ensures Exact(db, root, b, s.(done := s.done + [s.busy.value.o], busy := None, scanned := 0))
  {
    ObjectCovered(s);
    ObjectAccounted(db, root, b, s);
    ObjectLayered(db, root, s);
    hide Covered, Accounted, Layered;
  }

  lemma ObjectCovered(s: Search)
    requires Covered(s) && s.busy.Some?
    ensures Covered(s.(done := s.done + [s.busy.value.o], busy := None, scanned := 0))
  {
  }

  lemma ObjectLayered(db: Catalog, root: Object, s: Search)
    requires Layered(db, root, s) && s.busy.Some?
    ensures Layered(db, root, s.(done := s.done + [s.busy.value.o], busy := None, scanned := 0))
  {
    hide Placed;
  }

  lemma ObjectAccounted(db: Catalog, root: Object, b: Bounds, s: Search)
    requires Accounted(db, root, b, s) && QueueOk(s) && s.busy.Some? && Placed(db, root, s.busy.value)
    requires !Queued(s.queue, s.busy.value.o)
    requires |db.Rows(s.busy.value.o)| == s.scanned <= b.maxNodes
    requires RowsListed(s.g, s.busy.value.o, db.Rows(s.busy.value.o), s.scanned)
    ensures Accounted(db, root, b, s.(done := s.done + [s.busy.value.o], busy := None, scanned := 0))
  {
    hide Within, Expanded, RowsListed;
    var cur := s.busy.value;
    RowsExpand(db, s.g, cur.o);
    Nearer(db, root, cur.o, cur.depth, b.maxDepth - 1);
    WeighAppend(db, s.done, cur.o);
  }

  lemma RowsExpand(db: Catalog, g: Graph, o: Object)
    requires !Packaged(o) && RowsListed(g, o, db.Rows(o), |db.Rows(o)|)
    ensures Expanded(db, g, o)
  {
  }

  /** Reads the dependencies of one object off the queue. */
  method VisitObject(db: Catalog, root: Object, maxNodes: nat, ghost maxDepth: nat, before: Graph, waiting: seq<Item>,
                     cur: Item, ghost asked: seq<Object>, ghost past: seq<Object>)
    returns (g: Graph, queue: seq<Item>, ghost done: seq<Object>)
    requires WalkOk(db, root, Bounds(maxNodes, maxDepth), Search(before, waiting, asked, past, Some(cur), 0))
    ensures WalkOk(db, root, Bounds(maxNodes, maxDepth), Search(g, queue, asked, done, None, 0))
    ensures |queue| - |waiting| <= |g.nodes| - |before.nodes|
  {
    hide Sound, QueueOk, Exact, ScopeOk, Discover, TrueEdge, RowEdge, RowsListed, Target, WalkOk, NewRoutine;
    g, queue, done := before, waiting, past;
    ghost var b := Bounds(maxNodes, maxDepth);
    ghost var all := db.Rows(cur.o);
    var rows := First(db.rows(cur.o.name, cur.o.kind), maxNodes + 1);
    var scanned := 0;
    RowsNone(g, cur.o, all);
    while scanned < |rows|
      invariant scanned <= |rows| && scanned <= maxNodes
      invariant |queue| - |waiting| <= |g.nodes| - |before.nodes|
      invariant WalkOk(db, root, b, Search(g, queue, asked, done, Some(cur), scanned))
      invariant g.truncated || RowsListed(g, cur.o, all, scanned)
    {
      ghost var s := Search(g, queue, asked, done, Some(cur), scanned);
      if scanned == maxNodes {
        RowsCut(db, root, b, s);
        Cut(db, root, b, s);
        g := g.(truncated := true);
        break;
      }
      var row := rows[scanned];
      BusyRow(db, root, b, s);
      RowKeeps(db, root, b, s, row);
      DiscoverGrows(maxNodes, g, queue, cur, row);
      var stop: bool;
      done := done + NewRoutine(g, row);
      g, queue, stop := VisitRow(maxNodes, g, queue, cur, row);
      if !g.truncated {
        RowsStay(s.g, g, cur.o, all, scanned);
      }
      scanned := scanned + 1;
      if stop {
        break;
      }
    }
    ObjectDone(db, root, b, Search(g, queue, asked, done, Some(cur), scanned));
    done := done + [cur.o];
  }

  lemma BusyRow(db: Catalog, root: Object, b: Bounds, s: Search)
    requires WalkOk(db, root, b, s) && s.busy.Some? && s.scanned < |db.Rows(s.busy.value.o)|
    ensures TrueEdge(db, RowEdge(s.busy.value.o, db.Rows(s.busy.value.o)[s.scanned]))
  {
    hide Exact, Oversized;
    RowEdgeIsTrue(db, s.busy.value.o, db.Rows(s.busy.value.o), s.scanned);
  }

  lemma RowsNone(g: Graph, o: Object, rows: seq<Row>)
    ensures RowsListed(g, o, rows, 0)
  {
  }

  /** The object at the head of the queue moves from waiting to being asked about. */
  lemma Dequeue(db: Catalog, root: Object, b: Bounds, s: Search)
    requires s.queue != [] && s.busy.None? && s.scanned == 0 && WalkOk(db, root, b, s)
    requires s.queue[0].depth < b.maxDepth
    ensures WalkOk(db, root, b, s.(queue := s.queue[1..], asked := s.asked + [s.queue[0].o], busy := Some(s.queue[0])))
  {
    hide Sound, ScopeOk, Oversized, Covered, Finished, Placed;
    if !s.g.truncated {
      QueueSplit(s);
    }
  }

  lemma QueueSplit(s: Search)
    requires s.queue != [] && s.busy.None? && Covered(s)
    ensures Covered(s.(queue := s.queue[1..], asked := s.asked + [s.queue[0].o], busy := Some(s.queue[0])))
  {
    var t := s.(queue := s.queue[1..], asked := s.asked + [s.queue[0].o], busy := Some(s.queue[0]));
    forall n | n in s.g.nodes && n != s.queue[0].o ensures Queued(t.queue, n) || n in s.done {
      if Queued(s.queue, n) {
        var i :| 0 <= i < |s.queue| && s.queue[i].o == n;
        assert t.queue[i - 1].o == n;
      }
    }
  }

  /** After a cut the object at the head of the queue is left out. */
  lemma Skip(db: Catalog, root: Object, b: Bounds, s: Search)
    requires s.queue != [] && s.busy.None? && WalkOk(db, root, b, s) && Oversized(db, root, b)
    ensures WalkOk(db, root, b, s.(g := s.g.(truncated := true), queue := s.queue[1..]))
  {
    hide Sound, Exact, Oversized;
    Remark(db, root, b.maxNodes, s.g, s.g.(truncated := true));
  }

  // ---- the end of the walk

  /** With an empty queue and nothing cut off, the graph is everything reachable. */
  lemma WalkComplete(db: Catalog, root: Object, b: Bounds, s: Search)
    requires WalkOk(db, root, b, s) && s.queue == [] && s.busy.None? && !s.g.truncated
    ensures Complete(db, root, s.g)
  {
    hide TrueEdge, Reachable, Within, QueueOk, ScopeOk, Layered;
    var g := s.g;
    forall n | n in g.nodes ensures Expanded(db, g, n) {
      assert n in s.done;
    }
    forall o ensures o in g.nodes <==> Reachable(db, root, o) {
      if o in g.nodes {
        NodeReachable(db, root, b.maxNodes, g, o);
      } else if Reachable(db, root, o) {
        forall n, x | n in g.nodes && Successor(db, n, x) ensures x in g.nodes {
          assert Expanded(db, g, n);
        }
        ClosedHoldsReachable(db, root, g.nodes, o);
      }
    }
    forall e | e in g.edges ensures TrueEdge(db, e) && Reachable(db, root, e.from) {
      var i :| 0 <= i < |g.edges| && g.edges[i] == e;
      assert Joins(g, e);
    }
    forall e | TrueEdge(db, e) && Reachable(db, root, e.from) ensures e in g.edges {
      assert Expanded(db, g, e.from);
    }
  }

  lemma ReachedIsDone(s: Search, db: Catalog, root: Object, os: seq<Object>)
    requires Covered(s) && s.queue == [] && s.busy.None? && Complete(db, root, s.g) && AllReachable(db, root, os)
    ensures forall i :: 0 <= i < |os| ==> os[i] in s.g.nodes && os[i] in s.done
  {
    hide Reachable, TrueEdge;
  }

  /** A walk that nothing cut off shows that what can be reached fits the bounds. */
  lemma WalkFits(db: Catalog, root: Object, b: Bounds, s: Search)
    requires WalkOk(db, root, b, s) && s.queue == [] && s.busy.None? && s.scanned == 0 && !s.g.truncated
    ensures !Oversized(db, root, b)
  {
    WalkComplete(db, root, b, s);
    assert Covered(s) && Accounted(db, root, b, s);
    assert |s.g.nodes| <= b.maxNodes && |s.g.edges| <= 4 * b.maxNodes;
    hide WalkOk, Complete, Covered, Reachable, Within, Finished, Weigh, Weight;
    forall os | Distinct(os) && AllReachable(db, root, os)
      ensures |os| <= b.maxNodes && Weigh(db, os) <= 4 * b.maxNodes
    {
      ReachedIsDone(s, db, root, os);
      MembersWeighLess(db, os, s.g.nodes);
      MembersWeighLess(db, os, s.done);
    }
    forall o | Reachable(db, root, o)
      ensures Packaged(o) || (|db.Rows(o)| <= b.maxNodes && Within(db, root, o, b.maxDepth - 1))
    {
      ReachedIsDone(s, db, root, [o]);
      assert [o][0] in s.done;
      ReachedFits(db, root, b, s, o);
    }
  }

  lemma ReachedFits(db: Catalog, root: Object, b: Bounds, s: Search, o: Object)
    requires Accounted(db, root, b, s) && o in s.done
    ensures Packaged(o) || (|db.Rows(o)| <= b.maxNodes && Within(db, root, o, b.maxDepth - 1))
  {
    hide Expanded, Within, Packaged;
  }

  /** The graph a read starts from; the last component says that the walk goes on. */
  function Begin(maxNodes: nat, root: Object): (Graph, seq<Item>, bool) {
    var g := Graph(root, ObjectScope, [root], [], false);
    if !Packaged(root) then (g, [Item(root, 0)], true)
    else if maxNodes < 2 then (g.(scope := PackageBody, truncated := true), [], false)
    else (g.(scope := PackageBody, nodes := [root, Body(root)], edges := [BodyEdge(root)]), [Item(Body(root), 0)], true)
  }

  lemma BeginOk(db: Catalog, b: Bounds, root: Object)
    requires b.maxNodes >= 1
    ensures var (g, queue, _) := Begin(b.maxNodes, root);
      WalkOk(db, root, b, Search(g, queue, [], BeginDone(root), None, 0))
  {
    hide TrueEdge, Reachable, Within, Oversized, Exact;
    RootIsNear(db, root);
    var (g, queue, on) := Begin(b.maxNodes, root);
    if Packaged(root) {
      BodyEdgeIsTrue(db, root);
      StepReachable(db, root, BodyEdge(root));
      assert root in g.nodes;
    }
    if on {
      BeginExact(db, b, root);
    } else {
      assert Sound(db, root, b.maxNodes, g);
      BeginCut(db, b, root);
    }
  }

  /** A packaged root needs no query of its own. */
  function BeginDone(root: Object): seq<Object> {
    if Packaged(root) then [root] else []
  }

  lemma NothingBelowZero(db: Catalog, root: Object, o: Object)
    ensures !Within(db, root, o, -1)
  {
  }

  lemma BeginCut(db: Catalog, b: Bounds, root: Object)
    requires b.maxNodes < 2 && Packaged(root)
    ensures Oversized(db, root, b)
  {
    hide Reachable, TrueEdge;
    BodyEdgeIsTrue(db, root);
    RootIsNear(db, root);
    StepReachable(db, root, BodyEdge(root));
    assert Distinct([root, Body(root)]) && AllReachable(db, root, [root, Body(root)]);
  }

  lemma BeginExact(db: Catalog, b: Bounds, root: Object)
    requires Begin(b.maxNodes, root).2
    ensures var (g, queue, _) := Begin(b.maxNodes, root);
      Exact(db, root, b, Search(g, queue, [], BeginDone(root), None, 0))
  {
    BeginCovered(b.maxNodes, root);
    BeginAccounted(db, b, root);
    BeginLayered(db, b.maxNodes, root);
    hide Covered, Accounted, Layered;
  }

  lemma BeginCovered(maxNodes: nat, root: Object)
    requires Begin(maxNodes, root).2
    ensures var (g, queue, _) := Begin(maxNodes, root); Covered(Search(g, queue, [], BeginDone(root), None, 0))
  {
    hide Queued;
    var queue := Begin(maxNodes, root).1;
    QueuedGrows([], queue[0], queue[0].o);
    assert [] + [queue[0]] == queue;
  }

  lemma BeginAccounted(db: Catalog, b: Bounds, root: Object)
    requires Begin(b.maxNodes, root).2
    ensures var (g, queue, _) := Begin(b.maxNodes, root);
      Accounted(db, root, b, Search(g, queue, [], BeginDone(root), None, 0))
  {
    hide Within, Expanded;
    if Packaged(root) {
      RoutineExpanded(db, Begin(b.maxNodes, root).0, root);
      WeighAppend(db, [], root);
      assert [] + [root] == [root];
    }
  }

  lemma BeginLayered(db: Catalog, maxNodes: nat, root: Object)
    requires Begin(maxNodes, root).2
    ensures var (g, queue, _) := Begin(maxNodes, root);
      Layered(db, root, Search(g, queue, [], BeginDone(root), None, 0))
  {
    hide Within, TrueEdge;
    var queue := Begin(maxNodes, root).1;
    RootIsNear(db, root);
    NothingBelowZero(db, root, queue[0].o);
    if Packaged(root) {
      BodyEdgeIsTrue(db, root);
      StepWithin(db, root, BodyEdge(root), 0);
    }
  }

  /** How a read ends: after its walk, without one because not even the package body fits, or with an error. */
  datatype Ending = Walked | CutShort | Broken

  /**
   * The walk of one read. When a query or the commit fails, the graph is what had been found so far.
   * `asked` lists the objects whose rows were queried, in order.
   */
  method Walk(db: Catalog, maxNodes: nat, maxDepth: nat, root: Object)
    returns (g: Graph, end: Ending, ghost asked: seq<Object>)
    requires maxNodes >= 1 && maxDepth >= 1
    ensures Sound(db, root, maxNodes, g) && ScopeOk(g)
    ensures Distinct(asked) && forall i :: 0 <= i < |asked| ==> asked[i] in g.nodes
    ensures g.truncated ==> Oversized(db, root, Bounds(maxNodes, maxDepth))
    ensures end != Broken && Oversized(db, root, Bounds(maxNodes, maxDepth)) ==> g.truncated
    ensures end == Walked && !g.truncated ==> Complete(db, root, g)
    ensures end == CutShort <==> Packaged(root) && maxNodes == 1
    ensures end == CutShort ==> g.truncated && g.nodes == [root] && asked == []
    ensures end == Broken ==> !db.commits || exists o :: o in asked && db.fails(o.name, o.kind)
    ensures end == Walked ==> db.commits && forall i :: 0 <= i < |asked| ==> !db.fails(asked[i].name, asked[i].kind)
  {
    hide Sound, ScopeOk, Complete, Exact, Oversized, TrueEdge, First;
    ghost var b := Bounds(maxNodes, maxDepth);
    BeginOk(db, b, root);
    g, end, asked := Graph(root, ObjectScope, [root], [], false), CutShort, [];
    ghost var done := BeginDone(root);
    var queue := [Item(root, 0)];
    if Packaged(root) {
      var body := Body(root);
      queue := [Item(body, 0)];
      g := g.(nodes := [root, body], scope := PackageBody);
      if |g.nodes| > maxNodes {
        g := g.(nodes := g.nodes[..maxNodes], truncated := true);
        assert g == Begin(maxNodes, root).0;
        return;
      }
      g := g.(edges := [Edge(root, body, "", PackageBodyScope)]);
    }
    AtMost(db, root, maxNodes, g);
    while queue != []
      invariant WalkOk(db, root, b, Search(g, queue, asked, done, None, 0))
      invariant forall i :: 0 <= i < |asked| ==> !db.fails(asked[i].name, asked[i].kind)
      invariant |g.nodes| <= maxNodes
      decreases |queue| + (maxNodes - |g.nodes|), maxNodes - |g.nodes|
    {
      ghost var s := Search(g, queue, asked, done, None, 0);
      var current := queue[0];
      queue := queue[1..];
      if current.depth >= maxDepth {
        DepthCut(db, root, b, s);
        Skip(db, root, b, s);
        g := g.(truncated := true);
        continue;
      }
      Dequeue(db, root, b, s);
      asked := asked + [current.o];
      if db.fails(current.o.name, current.o.kind) {
        return g, Broken, asked;
      }
      g, queue, done := VisitObject(db, root, maxNodes, maxDepth, g, queue, current, asked, done);
      AtMost(db, root, maxNodes, g);
    }
    if !g.truncated {
      WalkComplete(db, root, b, Search(g, queue, asked, done, None, 0));
      WalkFits(db, root, b, Search(g, queue, asked, done, None, 0));
    }
    end := if db.commits then Walked else Broken;
  }

  lemma AtMost(db: Catalog, root: Object, maxNodes: nat, g: Graph)
    requires Sound(db, root, maxNodes, g)
    ensures |g.nodes| <= maxNodes
  {
    hide TrueEdge, Reachable;
  }
}
