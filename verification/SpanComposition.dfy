/** Parser and span consumer together: what a tree holds when it is exported. */
module SpanComposition {
  import opened Options
  import opened TraceEvents
  import opened TracePairing
  import opened SpanFamily
  import opened SpanLinks
  import F = SpanForest

  /** The finish the parser matched with the start: its number, its object, its parent. */
  ghost predicate FinishOf(h: seq<Event>, start: Event, j: nat) {
    j < |h| && h[j].PairedFinish() && SameExecution(start, h[j])
  }

  /** The execution has finished, and its node has that finish unless it carried a marker's token. */
  ghost predicate Settled(h: seq<Event>, n: F.Node) {
    exists j: nat :: FinishOf(h, n.start, j) && n.finish == if h[j].scopeToken == [] then Some(h[j]) else None
  }

  ghost predicate ParentBefore(nodes: seq<F.Node>, i: nat)
    requires i < |nodes|
  {
    exists k :: 0 <= k < i && nodes[k].start.sequence == nodes[i].start.parent
  }

  /** The nodes are the first unmarked starts under the root, as many as the tree may hold. */
  ghost predicate FirstOfFamily(t: Tree, h: seq<Event>, maxNodes: nat)
    requires t.nodes != []
  {
    var fam := Family(h, t.nodes[0].start.sequence);
    && |t.nodes| == Min(maxNodes, |fam|) && t.omitted == (|fam| > maxNodes)
    && forall i :: 0 <= i < |t.nodes| ==> t.nodes[i].start == fam[i]
  }

  /**
   * An exported tree: a top-level statement and the first unmarked starts under it, all in its scope,
   * closed under parents and numbered upwards, and every one of them over.
   */
  ghost predicate Whole(t: Tree, h: seq<Event>, maxNodes: nat) {
    && t.nodes != [] && t.nodes[0].start.parent == 0 && t.nodes[0].start.kind == Statement
    && FirstOfFamily(t, h, maxNodes)
    && (forall i :: 0 <= i < |t.nodes| ==> t.nodes[i].start.Scope() == t.nodes[0].start.Scope())
    && (forall i :: 0 < i < |t.nodes| ==> ParentBefore(t.nodes, i))
    && (forall i, j :: 0 <= i < j < |t.nodes| ==> t.nodes[i].start.sequence < t.nodes[j].start.sequence)
    && (forall i :: 0 <= i < |t.nodes| ==> Settled(h, t.nodes[i]))
  }

  lemma MatchedFinish(h: seq<Event>, s: Event, j: nat)
    requires History(h) && IsStart(h, s) && j < |h| && h[j].PairedFinish() && h[j].sequence == s.sequence
    ensures SameExecution(s, h[j])
  {
    hide SameExecution, AlwaysNested, ParentsOpen, Phased;
    StartsOfPrefix(h, j);
  }

  lemma OneFinish(h: seq<Event>, i: nat, j: nat)
    requires History(h) && i < |h| && j < |h| && h[i].PairedFinish() && h[j].PairedFinish()
    requires h[i].sequence == h[j].sequence
    ensures i == j
  {
    hide AlwaysNested, ParentsOpen, Phased, FinishesMatch, Numbered;
  }

  /** A member of a family that is over is settled. */
  lemma OverIsSettled(h: seq<Event>, n: F.Node)
    requires History(h) && IsStart(h, n.start) && !Open(h, n.start.sequence) && NodeOk(h, n)
    ensures Settled(h, n)
  {
    hide History, SameExecution, Starts;
    var j :| 0 <= j < |h| && h[j].PairedFinish() && h[j].sequence == n.start.sequence;
    MatchedFinish(h, n.start, j);
    if n.finish.Some? {
      var i :| 0 <= i < |h| && h[i] == n.finish.value;
      OneFinish(h, i, j);
    }
    assert FinishOf(h, n.start, j);
  }

  lemma NodeIsSettled(t: Tree, h: seq<Event>, maxNodes: nat, i: nat)
    requires TreeOk(t, h, maxNodes) && History(h) && t.complete && i < |t.nodes|
    ensures Settled(h, t.nodes[i]) && t.nodes[i].start.Scope() == t.nodes[0].start.Scope()
  {
    hide History, Family, Settled, NodeOk, Starts, Open;
    var root := t.nodes[0].start.sequence;
    NumberedOf(h);
    MembersAreKnown(h, root);
    MembersAreStarts(h, root, i);
    FirstIsMember(Family(h, root));
    FamilyHasFinished(t, h, maxNodes);
    NodesAreMembers(t, h, maxNodes);
    FamilySharesScope(h, root, i);
    OverIsSettled(h, t.nodes[i]);
  }

  /** Whatever the clients and the clock did in between, a tree whose root has finished is whole. */
  lemma CompleteIsWhole(t: Tree, h: seq<Event>, maxNodes: nat)
    requires TreeOk(t, h, maxNodes) && History(h) && t.complete
    ensures Whole(t, h, maxNodes)
  {
    hide History, Family, Settled, NodeOk;
    var root := t.nodes[0].start.sequence;
    var fam := Family(h, root);
    NumberedOf(h);
    FamilyIsClosed(h, root);
    forall i | 0 <= i < |t.nodes|
      ensures Settled(h, t.nodes[i]) && t.nodes[i].start.Scope() == t.nodes[0].start.Scope()
    {
      NodeIsSettled(t, h, maxNodes, i);
    }
    forall i | 0 < i < |t.nodes| ensures ParentBefore(t.nodes, i) {
      assert HasParent(fam, i);
      var k :| 0 <= k < i && fam[k].sequence == fam[i].parent;
      assert t.nodes[k].start == fam[k];
    }
  }

  /** The finish that the parser matched with this start carried a marker's token. */
  ghost predicate FinishWasMarked(h: seq<Event>, start: Event) {
    exists j: nat :: FinishOf(h, start, j) && h[j].scopeToken != []
  }

  /** A collected node is incomplete at export exactly when its own finish looked like a marker query. */
  lemma IncompleteExactlyWhenMarked(t: Tree, h: seq<Event>, maxNodes: nat, i: nat)
    requires Whole(t, h, maxNodes) && History(h) && i < |t.nodes|
    ensures t.nodes[i].finish.None? <==> FinishWasMarked(h, t.nodes[i].start)
  {
    hide History, Family;
    var n := t.nodes[i];
    assert Settled(h, n);
    var j: nat :| FinishOf(h, n.start, j) && n.finish == if h[j].scopeToken == [] then Some(h[j]) else None;
    if FinishWasMarked(h, n.start) {
      var k: nat :| FinishOf(h, n.start, k) && h[k].scopeToken != [];
      OneFinish(h, j, k);
    }
  }
}
