/** Dependency graphs, how far their objects are from the root, and when a graph is too large (metadata/reader.go). */
module MetadataGraph {
  const PROCEDURE: int := 5
  const FUNCTION: int := 15
  const PACKAGE_BODY: int := 19

  datatype Object = Object(name: string, kind: int, package: string)
  datatype EdgeKind = Dependency | PackageBodyScope
  datatype Edge = Edge(from: Object, to: Object, field: string, kind: EdgeKind)
  datatype Scope = ObjectScope | PackageBody
  datatype Graph = Graph(root: Object, scope: Scope, nodes: seq<Object>, edges: seq<Edge>, truncated: bool)
  datatype Bounds = Bounds(maxNodes: nat, maxDepth: nat)

  /** One row of RDB$DEPENDENCIES, names still padded with blanks. */
  datatype Row = Row(name: string, kind: int, field: string, package: string)

  /** The catalog as one transaction sees it, the queries that end in an error, and how the commit ends. */
  datatype Catalog = Catalog(rows: (string, int) -> seq<Row>, fails: (string, int) -> bool, commits: bool)
  {
    function Rows(o: Object): seq<Row> { rows(o.name, o.kind) }
  }

  function TrimBlanks(s: string): string {
    if s != [] && s[|s| - 1] == ' ' then TrimBlanks(s[..|s| - 1]) else s
  }

  function Target(r: Row): Object {
    Object(TrimBlanks(r.name), r.kind, TrimBlanks(r.package))
  }

  /** A routine of a package; its dependencies are recorded for the package body. */
  predicate Packaged(o: Object) {
    o.package != "" && (o.kind == PROCEDURE || o.kind == FUNCTION)
  }

  function Body(o: Object): (b: Object)
    ensures !Packaged(b)
  {
    Object(o.package, PACKAGE_BODY, "")
  }

  function RowEdge(o: Object, r: Row): Edge {
    Edge(o, Target(r), TrimBlanks(r.field), Dependency)
  }

  function BodyEdge(o: Object): Edge {
    Edge(o, Body(o), "", PackageBodyScope)
  }

  /** An edge the catalog justifies: a packaged routine leads to its body, anything else to what its rows name. */
  ghost predicate TrueEdge(db: Catalog, e: Edge) {
    if Packaged(e.from) then e == BodyEdge(e.from)
    else exists i :: 0 <= i < |db.Rows(e.from)| && e == RowEdge(e.from, db.Rows(e.from)[i])
  }

  ghost predicate Successor(db: Catalog, o: Object, s: Object) {
    exists e :: TrueEdge(db, e) && e.from == o && e.to == s
  }

  // ---- paths

  ghost predicate IsPath(db: Catalog, path: seq<Object>) {
    path != [] && forall i :: 0 <= i < |path| - 1 ==> Successor(db, path[i], path[i + 1])
  }

  /** The steps of a path that read a dependency row; going from a routine to its package body is free. */
  function Cost(path: seq<Object>): nat {
    if |path| <= 1 then 0
    else Cost(path[..|path| - 1]) + if Packaged(path[|path| - 2]) then 0 else 1
  }

  ghost predicate Leads(db: Catalog, path: seq<Object>, root: Object, o: Object) {
    IsPath(db, path) && path[0] == root && path[|path| - 1] == o
  }

  ghost predicate Reachable(db: Catalog, root: Object, o: Object) {
    exists path :: Leads(db, path, root, o)
  }

  /** The distance of the object from the root is at most `n`. */
  ghost predicate Within(db: Catalog, root: Object, o: Object, n: int) {
    exists path :: Leads(db, path, root, o) && Cost(path) <= n
  }

  lemma RootIsNear(db: Catalog, root: Object)
    ensures Within(db, root, root, 0) && Reachable(db, root, root)
  {
    assert Leads(db, [root], root, root);
  }

  lemma Nearer(db: Catalog, root: Object, o: Object, n: int, m: int)
    requires Within(db, root, o, n) && n <= m
    ensures Within(db, root, o, m)
  {
  }

  lemma LeadsFurther(db: Catalog, path: seq<Object>, root: Object, o: Object, s: Object)
    requires Leads(db, path, root, o) && Successor(db, o, s)
    ensures Leads(db, path + [s], root, s) && Cost(path + [s]) == Cost(path) + if Packaged(o) then 0 else 1
  {
    hide Successor;
    assert (path + [s])[..|path|] == path;
  }

  lemma StepReachable(db: Catalog, root: Object, e: Edge)
    requires TrueEdge(db, e) && Reachable(db, root, e.from)
    ensures Reachable(db, root, e.to)
  {
    hide TrueEdge;
    assert Successor(db, e.from, e.to);
    var path :| Leads(db, path, root, e.from);
    LeadsFurther(db, path, root, e.from, e.to);
  }

  lemma StepWithin(db: Catalog, root: Object, e: Edge, n: int)
    requires TrueEdge(db, e) && Within(db, root, e.from, n)
    ensures Within(db, root, e.to, n + if Packaged(e.from) then 0 else 1)
  {
    hide TrueEdge;
    assert Successor(db, e.from, e.to);
    var path :| Leads(db, path, root, e.from) && Cost(path) <= n;
    LeadsFurther(db, path, root, e.from, e.to);
  }

  /** A set of objects that holds the root and every successor of its members holds everything reachable. */
  lemma ClosedHoldsReachable(db: Catalog, root: Object, nodes: seq<Object>, o: Object)
    requires root in nodes && Reachable(db, root, o)
    requires forall n, s :: n in nodes && Successor(db, n, s) ==> s in nodes
    ensures o in nodes
  {
    hide Successor;
    var path :| Leads(db, path, root, o);
    var i := 0;
    while i < |path| - 1
      invariant i < |path| && path[i] in nodes
    {
      assert Successor(db, path[i], path[i + 1]);
      i := i + 1;
    }
  }

  /** Objects that are waiting: not routines of a package, and not nearer than `n`. */
  ghost predicate NotNearer(db: Catalog, root: Object, o: Object, n: int) {
    !Packaged(o) && !Within(db, root, o, n - 1)
  }

  lemma PrefixLeads(db: Catalog, path: seq<Object>, root: Object, o: Object, i: nat)
    requires Leads(db, path, root, o) && i < |path|
    ensures Leads(db, path[..i + 1], root, path[i])
  {
    hide Successor;
  }

  lemma {:induction false} PrefixCost(path: seq<Object>, i: nat)
    requires i < |path|
    ensures Cost(path[..i + 1]) + (if i + 1 < |path| && !Packaged(path[i]) then 1 else 0) <= Cost(path)
    decreases |path|
  {
    if i + 1 < |path| {
      var init := path[..|path| - 1];
      if i + 1 < |init| {
        PrefixCost(init, i);
        assert init[..i + 1] == path[..i + 1];
      } else {
        assert init == path[..i + 1];
      }
    } else {
      assert path[..i + 1] == path;
    }
  }

  /**
   * The frontier of a search: when every member has its successors among the members or is waiting no nearer than `n`,
   * every object within `n` of the root is a member.
   */
  lemma Frontier(db: Catalog, root: Object, nodes: seq<Object>, n: int, o: Object)
    requires root in nodes && Within(db, root, o, n)
    requires forall m :: m in nodes ==> NotNearer(db, root, m, n) || forall s :: Successor(db, m, s) ==> s in nodes
    ensures o in nodes
  {
    hide Successor, Cost;
    var path :| Leads(db, path, root, o) && Cost(path) <= n;
    var i := 0;
    while i < |path| - 1
      invariant i < |path| && path[i] in nodes
    {
      PrefixLeads(db, path, root, o, i);
      PrefixCost(path, i);
      assert Successor(db, path[i], path[i + 1]);
      i := i + 1;
    }
  }

  // ---- graphs that do not fit

  ghost predicate Distinct<T>(s: seq<T>) {
    forall i, j :: 0 <= i < j < |s| ==> s[i] != s[j]
  }

  ghost predicate AllReachable(db: Catalog, root: Object, os: seq<Object>) {
    forall i :: 0 <= i < |os| ==> Reachable(db, root, os[i])
  }

  /** The edges that leave an object: its rows, or the one to its package body. */
  function Weight(db: Catalog, o: Object): nat {
    if Packaged(o) then 1 else |db.Rows(o)|
  }

  function Weigh(db: Catalog, os: seq<Object>): nat {
    if os == [] then 0 else Weigh(db, os[..|os| - 1]) + Weight(db, os[|os| - 1])
  }

  ghost predicate TooManyObjects(db: Catalog, root: Object, b: Bounds) {
    exists os :: Distinct(os) && AllReachable(db, root, os) && |os| > b.maxNodes
  }

  ghost predicate TooManyEdges(db: Catalog, root: Object, b: Bounds) {
    exists os :: Distinct(os) && AllReachable(db, root, os) && Weigh(db, os) > 4 * b.maxNodes
  }

  ghost predicate TooManyRows(db: Catalog, root: Object, b: Bounds) {
    exists o :: Reachable(db, root, o) && !Packaged(o) && |db.Rows(o)| > b.maxNodes
  }

  /** Some object whose rows would be asked for is at the depth limit or farther. */
  ghost predicate TooDeep(db: Catalog, root: Object, b: Bounds) {
    exists o :: Reachable(db, root, o) && NotNearer(db, root, o, b.maxDepth)
  }

  /** What can be reached from the root does not fit the bounds. */
  ghost predicate Oversized(db: Catalog, root: Object, b: Bounds) {
    || TooManyObjects(db, root, b) || TooManyEdges(db, root, b) || TooManyRows(db, root, b) || TooDeep(db, root, b)
  }

  lemma WeighAppend(db: Catalog, os: seq<Object>, o: Object)
    ensures Weigh(db, os + [o]) == Weigh(db, os) + Weight(db, o)
  {
    assert (os + [o])[..|os|] == os;
  }

  function Without(os: seq<Object>, i: nat): seq<Object>
    requires i < |os|
  {
    os[..i] + os[i + 1..]
  }

  lemma {:induction false} WeighWithout(db: Catalog, os: seq<Object>, i: nat)
    requires i < |os|
    ensures Weigh(db, os) == Weigh(db, Without(os, i)) + Weight(db, os[i])
    decreases |os|
  {
    var init := os[..|os| - 1];
    if i < |init| {
      WeighWithout(db, init, i);
      assert Without(os, i) == Without(init, i) + [os[|os| - 1]];
      WeighAppend(db, Without(init, i), os[|os| - 1]);
    } else {
      assert Without(os, i) == init;
    }
  }

  /** Different members of a list weigh no more than the list, and are no more. */
  lemma {:induction false} MembersWeighLess(db: Catalog, os: seq<Object>, all: seq<Object>)
    requires Distinct(os) && forall i :: 0 <= i < |os| ==> os[i] in all
    ensures Weigh(db, os) <= Weigh(db, all) && |os| <= |all|
    decreases |os|
  {
    if os != [] {
      var init, last := os[..|os| - 1], os[|os| - 1];
      var k :| 0 <= k < |all| && all[k] == last;
      WeighWithout(db, all, k);
      forall i | 0 <= i < |init| ensures init[i] in Without(all, k) {
        var j :| 0 <= j < |all| && all[j] == os[i];
        assert j != k && (if j < k then Without(all, k)[j] else Without(all, k)[j - 1]) == os[i];
      }
      MembersWeighLess(db, init, Without(all, k));
    }
  }
}
