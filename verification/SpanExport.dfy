/** Sending the spans of a finished tree (trace/spans.go, exportTree). Times are in nanoseconds. */
module SpanExport {
  import opened Options
  import opened Utf8
  import opened ByteText
  import opened TraceEvents
  import opened SpanForest
  import opened SpanGroups
  import R = SpanRegistry
  import Plans = PlanParts

  const MAX_SPANS: nat := 128

  datatype Reason = SourceEvent | Unpaired | CollectionLimit | ExportLimit

  /** What only the span of the root tells. */
  datatype Summary = Summary(reasons: seq<Reason>, collected: nat, exportable: nat, collapsedCalls: nat, groups: nat)

  /** `parent` is the position of the parent among the spans of the tree, or nothing for the client's span. */
  datatype Span = Span(
    node: Node,
    parent: Option<nat>,
    name: Bytes,
    begin: int,
    end: int,
    incomplete: bool,
    summary: Option<Summary>,
    plan: seq<Bytes>,
    repeated: seq<Group>)

  datatype Job = Job(clock: Clock, tree: Tree, scope: R.Scope, collapsed: set<nat>, groups: seq<Group>)
  datatype Sent = Sent(spans: seq<Span>, parents: map<nat, nat>)

  // ---- what the root reports

  predicate FromSource(n: Node) {
    n.start.incomplete || (n.finish.Some? && n.finish.value.incomplete)
  }

  predicate Visible(j: Job, n: Node) {
    n.finish.Some? && n.start.sequence !in j.collapsed
  }

  function VisibleCount(j: Job, n: nat): nat
    requires n <= |j.tree.nodes|
  {
    if n == 0 then 0 else VisibleCount(j, n - 1) + if Visible(j, j.tree.nodes[n - 1]) then 1 else 0
  }

  function Reasons(j: Job): seq<Reason> {
    (if exists n :: n in j.tree.nodes && FromSource(n) then [SourceEvent] else [])
    + (if exists n :: n in j.tree.nodes && n.finish.None? then [Unpaired] else [])
    + (if j.tree.omitted then [CollectionLimit] else [])
    + (if VisibleCount(j, |j.tree.nodes|) > MAX_SPANS then [ExportLimit] else [])
  }

  function SummaryOf(j: Job): Summary {
    Summary(Reasons(j), |j.tree.nodes|, VisibleCount(j, |j.tree.nodes|), |j.collapsed|, |j.groups|)
  }

  // ---- one span

  function KindName(k: Kind): Bytes {
    match k
    case Statement => Ascii("statement")
    case Procedure => Ascii("procedure")
    case Function => Ascii("function")
    case Trigger => Ascii("trigger")
    case Lifecycle => Ascii("lifecycle")
    case Gap => Ascii("gap")
  }

  function PlanOf(n: Node): Bytes {
    if n.start.kind != Statement then []
    else if n.start.plan != [] then n.start.plan
    else if n.finish.Some? then n.finish.value.plan else []
  }

  function GroupsUnder(groups: seq<Group>, parent: nat): seq<Group> {
    if groups == [] then [] else
    var g := groups[|groups| - 1];
    GroupsUnder(groups[..|groups| - 1], parent) + if g.key.parent == parent then [g] else []
  }

  /** Where the server's clock reading lies on the client's clock. */
  function Local(j: Job, time: int): int {
    (if j.scope.markerCompleted.Some? then j.scope.markerCompleted.value else j.scope.registered)
    + (time - j.tree.anchor)
  }

  predicate Timed(j: Job, n: Node) {
    n.finish.Some? && Duration(j.clock, n).Some?
  }

  function SpanOf(j: Job, n: Node, parent: Option<nat>, root: bool): Span
    requires Timed(j, n)
  {
    Span(n, parent, if n.start.name == [] then KindName(n.start.kind) else n.start.name,
         Local(j, j.clock(n.start.timestamp).value), Local(j, j.clock(n.finish.value.timestamp).value),
         Reasons(j) != [], if root then Some(SummaryOf(j)) else None,
         Plans.Parts(PlanOf(n)), GroupsUnder(j.groups, n.start.sequence))
  }

  /** The position of the parent's span, if it was sent; the root hangs on the client's span. */
  function ParentOf(j: Job, o: Sent, i: nat): Option<Option<nat>>
    requires i < |j.tree.nodes|
  {
    var p := j.tree.nodes[i].start.parent;
    if i == 0 then Some(None)
    else if p in o.parents then Some(Some(o.parents[p]))
    else None
  }

  /** What has been sent after the first `n` nodes. */
  function SentAfter(j: Job, n: nat): Sent
    requires n <= |j.tree.nodes|
  {
    if n == 0 then Sent([], map[]) else
    var o := SentAfter(j, n - 1);
    var node := j.tree.nodes[n - 1];
    var parent := ParentOf(j, o, n - 1);
    if !Visible(j, node) || |o.spans| >= MAX_SPANS || !Timed(j, node) || parent.None? then o
    else Sent(o.spans + [SpanOf(j, node, parent.value, n == 1)], o.parents[node.start.sequence := |o.spans|])
  }

  function SentSpans(j: Job): seq<Span> {
    SentAfter(j, |j.tree.nodes|).spans
  }

  ghost predicate PlansOk(t: Tree) {
    forall i :: 0 <= i < |t.nodes| ==> Valid(PlanOf(t.nodes[i]))
  }

  method FindReasons(j: Job) returns (reasons: seq<Reason>, visible: nat)
    ensures reasons == Reasons(j) && visible == VisibleCount(j, |j.tree.nodes|)
  {
    var source, unpaired := false, false;
    visible := 0;
    var i := 0;
    while i < |j.tree.nodes|
      invariant i <= |j.tree.nodes| && visible == VisibleCount(j, i)
      invariant source <==> exists k :: 0 <= k < i && FromSource(j.tree.nodes[k])
      invariant unpaired <==> exists k :: 0 <= k < i && j.tree.nodes[k].finish.None?
    {
      var n := j.tree.nodes[i];
      source := source || FromSource(n);
      unpaired := unpaired || n.finish.None?;
      if Visible(j, n) {
        visible := visible + 1;
      }
      i := i + 1;
    }
    assert source <==> exists n :: n in j.tree.nodes && FromSource(n);
    assert unpaired <==> exists n :: n in j.tree.nodes && n.finish.None?;
    reasons := [];
    if source {
      reasons := reasons + [SourceEvent];
    }
    if unpaired {
      reasons := reasons + [Unpaired];
    }
    if j.tree.omitted {
      reasons := reasons + [CollectionLimit];
    }
    if visible > MAX_SPANS {
      reasons := reasons + [ExportLimit];
    }
  }

  method CollectGroupsUnder(groups: seq<Group>, parent: nat) returns (under: seq<Group>)
    ensures under == GroupsUnder(groups, parent)
  {
    under := [];
    var i := 0;
    while i < |groups|
      invariant i <= |groups| && under == GroupsUnder(groups[..i], parent)
    {
      assert groups[..i + 1][..i] == groups[..i];
      if groups[i].key.parent == parent {
        under := under + [groups[i]];
      }
      i := i + 1;
    }
    assert groups[..i] == groups;
  }

  method BuildSpan(j: Job, n: Node, parent: Option<nat>, root: bool, reasons: seq<Reason>, visible: nat)
    returns (s: Span)
    requires Timed(j, n) && Valid(PlanOf(n))
    requires reasons == Reasons(j) && visible == VisibleCount(j, |j.tree.nodes|)
    ensures s == SpanOf(j, n, parent, root)
  {
    var parts := Plans.PlanParts(PlanOf(n));
    var under := CollectGroupsUnder(j.groups, n.start.sequence);
    var summary := if root then Some(Summary(reasons, |j.tree.nodes|, visible, |j.collapsed|, |j.groups|)) else None;
    s := Span(n, parent, if n.start.name == [] then KindName(n.start.kind) else n.start.name,
              Local(j, j.clock(n.start.timestamp).value), Local(j, j.clock(n.finish.value.timestamp).value),
              reasons != [], summary, parts, under);
  }

  method SendTree(clock: Clock, collapse: bool, t: Tree, scope: R.Scope) returns (spans: seq<Span>, ghost j: Job)
    requires t.nodes != [] && PlansOk(t)
    ensures j.clock == clock && j.tree == t && j.scope == scope && j.collapsed == SequencesOf(j.groups)
    ensures if !collapse || t.omitted || |t.nodes| < MIN_NODES then j.groups == []
            else Selection(clock, t.nodes, j.groups)
    ensures spans == SentSpans(j)
  {
    hide Selection, SequencesOf, Reasons, VisibleCount, Valid, SpanOf, Timed, PlanOf;
    var collapsed, groups := RepeatedLeaves(clock, collapse, t);
    var job := Job(clock, t, scope, collapsed, groups);
    j := job;
    var reasons, visible := FindReasons(job);
    var parents: map<nat, nat> := map[];
    spans := [];
    var i := 0;
    while i < |t.nodes|
      invariant i <= |t.nodes| && Sent(spans, parents) == SentAfter(job, i)
    {
      var n := t.nodes[i];
      if Visible(job, n) && |spans| < MAX_SPANS && Timed(job, n) && (i == 0 || n.start.parent in parents) {
        var parent := if i == 0 then None else Some(parents[n.start.parent]);
        var span := BuildSpan(job, n, parent, i == 0, reasons, visible);
        parents := parents[n.start.sequence := |spans|];
        spans := spans + [span];
      }
      i := i + 1;
    }
  }

  // ---- the shape of what is sent

  /** A span after the first hangs on the earlier span of the execution that its own execution names as its parent. */
  ghost predicate Hangs(spans: seq<Span>, k: nat)
    requires k < |spans|
  {
    if k == 0 then spans[k].parent == None && spans[k].summary.Some?
    else
      && spans[k].parent.Some? && spans[k].summary.None? && spans[k].parent.value < k
      && spans[spans[k].parent.value].node.start.sequence == spans[k].node.start.parent
  }

  ghost predicate Forest(spans: seq<Span>) {
    |spans| <= MAX_SPANS && forall k :: 0 <= k < |spans| ==> Hangs(spans, k)
  }

  ghost predicate ParentsOk(o: Sent) {
    forall s :: s in o.parents ==> o.parents[s] < |o.spans| && o.spans[o.parents[s]].node.start.sequence == s
  }

  lemma HangsOn(spans: seq<Span>, s: Span, k: nat)
    requires k < |spans| && Hangs(spans, k)
    ensures Hangs(spans + [s], k)
  {
  }

  lemma {:induction false} ShapeAfter(j: Job, n: nat)
    requires n <= |j.tree.nodes|
    ensures var o := SentAfter(j, n); Forest(o.spans) && ParentsOk(o)
    ensures var o := SentAfter(j, n); o.spans != [] ==> o.spans[0].node == j.tree.nodes[0]
    ensures var o := SentAfter(j, n); o.spans == [] ==> o.parents == map[]
  {
    hide SpanOf, Visible, Timed, Hangs;
    if n > 0 {
      ShapeAfter(j, n - 1);
      var o, node := SentAfter(j, n - 1), j.tree.nodes[n - 1];
      if SentAfter(j, n) != o {
        var parent := ParentOf(j, o, n - 1).value;
        var s := SpanOf(j, node, parent, n == 1);
        NewSpan(j, node, parent, n == 1);
        forall k | 0 <= k < |o.spans| ensures Hangs(o.spans + [s], k) {
          HangsOn(o.spans, s, k);
        }
        assert n == 1 ==> o == SentAfter(j, 0);
        NewHangs(o, s, node, parent, n == 1);
      }
    }
  }

  lemma NewSpan(j: Job, n: Node, parent: Option<nat>, root: bool)
    requires Timed(j, n)
    ensures var s := SpanOf(j, n, parent, root); s.node == n && s.parent == parent && s.summary.Some? == root
  {
  }

  lemma NewHangs(o: Sent, s: Span, n: Node, parent: Option<nat>, root: bool)
    requires ParentsOk(o) && s.node == n && s.parent == parent && s.summary.Some? == root
    requires if root then o.spans == [] && parent == None
             else parent.Some? && n.start.parent in o.parents && parent.value == o.parents[n.start.parent]
    ensures Hangs(o.spans + [s], |o.spans|)
  {
  }

  /** Either nothing is sent, or the root first and then at most 127 spans, each hanging on its parent's. */
  lemma ExportedForest(j: Job)
    requires j.tree.nodes != []
    ensures Forest(SentSpans(j))
    ensures SentSpans(j) != [] ==> SentSpans(j)[0].node == j.tree.nodes[0]
    ensures SentSpans(j) != [] <==> Visible(j, j.tree.nodes[0]) && Timed(j, j.tree.nodes[0])
  {
    ShapeAfter(j, |j.tree.nodes|);
    RootDecides(j, |j.tree.nodes|);
  }

  lemma {:induction false} RootDecides(j: Job, n: nat)
    requires 0 < n <= |j.tree.nodes|
    ensures SentAfter(j, n).spans != [] <==> Visible(j, j.tree.nodes[0]) && Timed(j, j.tree.nodes[0])
  {
    hide SpanOf, Visible, Timed;
    if n > 1 {
      RootDecides(j, n - 1);
      ShapeAfter(j, n - 1);
    } else {
      assert SentAfter(j, 0) == Sent([], map[]);
    }
  }

  // ---- which executions are sent

  ghost predicate Listed(nodes: seq<Node>, n: nat) {
    exists i :: 0 <= i < |nodes| && nodes[i].start.sequence == n
  }

  /** Every execution that may be shown and whose parent is shown, without any limit. */
  ghost function Shown(j: Job, n: nat): seq<Node>
    requires n <= |j.tree.nodes|
  {
    if n == 0 then [] else
    var shown := Shown(j, n - 1);
    var node := j.tree.nodes[n - 1];
    if Visible(j, node) && Timed(j, node) && (n == 1 || Listed(shown, node.start.parent)) then shown + [node] else shown
  }

  function NodesOf(spans: seq<Span>): seq<Node> {
    if spans == [] then [] else NodesOf(spans[..|spans| - 1]) + [spans[|spans| - 1].node]
  }

  lemma NodesAppend(spans: seq<Span>, s: Span)
    ensures NodesOf(spans + [s]) == NodesOf(spans) + [s.node]
  {
  }

  ghost predicate ParentsListed(o: Sent, shown: seq<Node>) {
    forall s: nat :: s in o.parents <==> Listed(shown, s)
  }

  function FirstNodes(nodes: seq<Node>): seq<Node> {
    if |nodes| <= MAX_SPANS then nodes else nodes[..MAX_SPANS]
  }

  lemma ListedAppend(shown: seq<Node>, node: Node, s: nat)
    ensures Listed(shown + [node], s) <==> Listed(shown, s) || node.start.sequence == s
  {
    var more := shown + [node];
    if Listed(shown, s) {
      var i :| 0 <= i < |shown| && shown[i].start.sequence == s;
      assert more[i].start.sequence == s;
    }
    assert more[|shown|] == node;
  }

  ghost predicate Agrees(o: Sent, shown: seq<Node>) {
    && NodesOf(o.spans) == FirstNodes(shown) && |o.spans| == |FirstNodes(shown)|
    && (|shown| <= MAX_SPANS ==> ParentsListed(o, shown))
  }

  lemma AgreeWhenFull(o: Sent, shown: seq<Node>, node: Node)
    requires Agrees(o, shown) && |o.spans| >= MAX_SPANS
    ensures Agrees(o, shown + [node])
  {
  }

  lemma AgreeOnNew(o: Sent, shown: seq<Node>, s: Span)
    requires Agrees(o, shown) && |o.spans| < MAX_SPANS
    ensures Agrees(Sent(o.spans + [s], o.parents[s.node.start.sequence := |o.spans|]), shown + [s.node])
  {
    hide Listed;
    NodesAppend(o.spans, s);
    forall n: nat ensures Listed(shown + [s.node], n) <==> Listed(shown, n) || s.node.start.sequence == n {
      ListedAppend(shown, s.node, n);
    }
  }

  lemma AgreeOnParents(j: Job, o: Sent, shown: seq<Node>, i: nat)
    requires i < |j.tree.nodes| && Agrees(o, shown) && |o.spans| < MAX_SPANS
    ensures ParentOf(j, o, i).Some? <==> i == 0 || Listed(shown, j.tree.nodes[i].start.parent)
  {
    hide Listed, NodesOf;
  }

  lemma {:induction false} SentIsShown(j: Job, n: nat)
    requires n <= |j.tree.nodes|
    ensures Agrees(SentAfter(j, n), Shown(j, n))
  {
    hide SpanOf, Visible, Timed, Listed, ParentOf, Agrees;
    if n == 0 {
      NothingAgrees();
    } else {
      SentIsShown(j, n - 1);
      var o, node, shown := SentAfter(j, n - 1), j.tree.nodes[n - 1], Shown(j, n - 1);
      if |o.spans| >= MAX_SPANS {
        AgreeWhenFull(o, shown, node);
      } else {
        AgreeOnParents(j, o, shown, n - 1);
        if Visible(j, node) && Timed(j, node) && ParentOf(j, o, n - 1).Some? {
          var parent := ParentOf(j, o, n - 1).value;
          NewSpan(j, node, parent, n == 1);
          AgreeOnNew(o, shown, SpanOf(j, node, parent, n == 1));
        }
      }
    }
  }

  lemma NothingAgrees()
    ensures Agrees(Sent([], map[]), [])
  {
  }

  /** The spans are those of the first 128 executions to be shown, in order. */
  lemma ExactlyTheFirstAreSent(j: Job)
    ensures NodesOf(SentSpans(j)) == FirstNodes(Shown(j, |j.tree.nodes|))
  {
    hide SentAfter, Shown;
    SentIsShown(j, |j.tree.nodes|);
  }

  /** Nothing hangs on a collapsed execution. */
  ghost predicate LeavesOnly(j: Job) {
    forall s :: s in j.collapsed ==> !HasChild(j.tree.nodes, s)
  }

  lemma SelectionIsLeaves(j: Job)
    requires j.collapsed == SequencesOf(j.groups) && (j.groups == [] || Selection(j.clock, j.tree.nodes, j.groups))
    ensures LeavesOnly(j)
  {
    hide Selection, HasChild;
    if j.groups == [] {
      assert SequencesOf([]) == {};
    } else {
      forall s | s in j.collapsed ensures !HasChild(j.tree.nodes, s) {
        CollapsingOrphansNobody(j.clock, j.tree.nodes, j.groups, s);
      }
    }
  }

  lemma {:induction false} ShownAreVisible(j: Job, n: nat)
    requires n <= |j.tree.nodes|
    ensures |Shown(j, n)| <= VisibleCount(j, n)
  {
    hide Visible, Timed, Listed;
    if n > 0 {
      ShownAreVisible(j, n - 1);
    }
  }

  lemma {:induction false} ShownStays(j: Job, n: nat, m: nat, node: Node)
    requires n <= m <= |j.tree.nodes| && node in Shown(j, n)
    ensures node in Shown(j, m)
    decreases m
  {
    hide Visible, Timed, Listed;
    if n < m {
      ShownStays(j, n, m - 1, node);
    }
  }

  /** The times of the execution can be read, and so can those of everything it runs under. */
  ghost predicate TimedUpwards(j: Job, i: nat)
    requires i < |j.tree.nodes|
    decreases i
  {
    && Timed(j, j.tree.nodes[i])
    && forall k: nat :: k < i && j.tree.nodes[k].start.sequence == j.tree.nodes[i].start.parent ==> TimedUpwards(j, k)
  }

  /** An export that is not marked incomplete leaves nothing out but what it collapses. */
  lemma UnmarkedHidesNothing(j: Job, i: nat)
    requires i < |j.tree.nodes| && Closed(j.tree.nodes) && LeavesOnly(j) && Reasons(j) == []
    requires TimedUpwards(j, i) && j.tree.nodes[i].start.sequence !in j.collapsed
    ensures j.tree.nodes[i] in NodesOf(SentSpans(j))
  {
    hide TimedUpwards, LeavesOnly, Closed, Shown, SentAfter, NodesOf;
    CollapsingHidesOnlyItself(j, i);
    ShownStays(j, i + 1, |j.tree.nodes|, j.tree.nodes[i]);
    ShownAreVisible(j, |j.tree.nodes|);
    ExactlyTheFirstAreSent(j);
  }

  lemma UnmarkedIsFinished(j: Job)
    requires Reasons(j) == []
    ensures !j.tree.omitted && forall n :: n in j.tree.nodes ==> n.finish.Some? && !FromSource(n)
  {
    hide FromSource, VisibleCount;
  }

  ghost predicate Closed(nodes: seq<Node>) {
    forall i :: 0 < i < |nodes| ==> Listed(nodes[..i], nodes[i].start.parent)
  }

  lemma {:induction false} ShownKeeps(j: Job, n: nat, m: nat, s: nat)
    requires n <= m <= |j.tree.nodes| && Listed(Shown(j, n), s)
    ensures Listed(Shown(j, m), s)
    decreases m
  {
    if n < m {
      ShownKeeps(j, n, m - 1, s);
      ListedAppend(Shown(j, m - 1), j.tree.nodes[m - 1], s);
    }
  }

  /** Collapsing hides the collapsed executions and nothing else: whoever has times, up to the root, is shown. */
  lemma {:induction false} CollapsingHidesOnlyItself(j: Job, i: nat)
    requires i < |j.tree.nodes| && Closed(j.tree.nodes) && LeavesOnly(j)
    requires TimedUpwards(j, i) && j.tree.nodes[i].start.sequence !in j.collapsed
    ensures j.tree.nodes[i] in Shown(j, i + 1) && Listed(Shown(j, i + 1), j.tree.nodes[i].start.sequence)
    decreases i
  {
    hide Timed;
    var nodes := j.tree.nodes;
    assert nodes[i] in nodes;
    TimedIsFinished(j, nodes[i]);
    if i > 0 {
      var k :| 0 <= k < i && nodes[..i][k].start.sequence == nodes[i].start.parent;
      assert HasChild(nodes, nodes[k].start.sequence);
      CollapsingHidesOnlyItself(j, k);
      ShownKeeps(j, k + 1, i, nodes[k].start.sequence);
    }
    ListedAppend(Shown(j, i), nodes[i], nodes[i].start.sequence);
  }

  lemma TimedIsFinished(j: Job, n: Node)
    requires Timed(j, n)
    ensures n.finish.Some?
  {
  }

  // ---- what a span tells

  /**
   * The plan of the execution in full, cut into parts; its length by the server's clock; the groups that hang on it.
   */
  ghost predicate Truthful(j: Job, s: Span) {
    && Timed(j, s.node) && s.end - s.begin == Elapsed(j, s.node) >= 0
    && s.begin - Local(j, 0) == j.clock(s.node.start.timestamp).value
    && (Valid(PlanOf(s.node)) ==> Plans.Concat(s.plan) == PlanOf(s.node))
    && (forall g :: g in s.repeated <==> g in j.groups && g.key.parent == s.node.start.sequence)
  }

  function Elapsed(j: Job, n: Node): int
    requires Timed(j, n)
  {
    j.clock(n.finish.value.timestamp).value - j.clock(n.start.timestamp).value
  }

  lemma {:induction false} GroupsUnderAre(groups: seq<Group>, parent: nat, g: Group)
    ensures g in GroupsUnder(groups, parent) <==> g in groups && g.key.parent == parent
  {
    if groups != [] {
      var init, last := groups[..|groups| - 1], groups[|groups| - 1];
      GroupsUnderAre(init, parent, g);
      assert g in groups <==> g in init || g == last;
    }
  }

  lemma SpanIsTruthful(j: Job, n: Node, parent: Option<nat>, root: bool)
    requires Timed(j, n)
    ensures Truthful(j, SpanOf(j, n, parent, root))
  {
    hide Valid, Plans.Parts, Plans.Concat, Reasons, GroupsUnder;
    if Valid(PlanOf(n)) {
      Plans.PartsConcat(PlanOf(n));
    }
    forall g
      ensures g in GroupsUnder(j.groups, n.start.sequence) <==> g in j.groups && g.key.parent == n.start.sequence
    {
      GroupsUnderAre(j.groups, n.start.sequence, g);
    }
  }

  lemma {:induction false} SentIsTruthful(j: Job, n: nat, k: nat)
    requires n <= |j.tree.nodes| && k < |SentAfter(j, n).spans|
    ensures Truthful(j, SentAfter(j, n).spans[k])
  {
    hide SpanOf, Visible, Timed, Truthful, ParentOf;
    var o := SentAfter(j, n - 1);
    if k < |o.spans| {
      SentIsTruthful(j, n - 1, k);
    } else {
      SpanIsTruthful(j, j.tree.nodes[n - 1], ParentOf(j, o, n - 1).value, n == 1);
    }
  }

  lemma {:induction false} SentIsTold(j: Job, n: nat, k: nat)
    requires n <= |j.tree.nodes| && k < |SentAfter(j, n).spans|
    ensures SentAfter(j, n).spans[k].incomplete <==> Reasons(j) != []
  {
    hide Visible, Timed, ParentOf, Reasons, SummaryOf, GroupsUnder, Plans.Parts, KindName;
    var o := SentAfter(j, n - 1);
    if k < |o.spans| {
      SentIsTold(j, n - 1, k);
    }
  }

  /**
   * Every span that is sent tells its execution's plan, duration and groups, and all on one shift of the server's
   * clock.
   */
  lemma SpansTellTheTruth(j: Job, k: nat)
    requires k < |SentSpans(j)|
    ensures Truthful(j, SentSpans(j)[k])
  {
    SentIsTruthful(j, |j.tree.nodes|, k);
  }
}
