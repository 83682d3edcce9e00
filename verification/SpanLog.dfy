/** What the record of exports promises, said of the sequence of critical sections (trace/spans.go, flush). */
module SpanLog {
  import opened Options
  import opened TraceEvents
  import opened SpanRegistry
  import opened SpanForest
  import opened SpanFamily
  import opened SpanComposition
  import G = SpanGroups
  import S = SpanExport

  /** An exported tree: the lookup it was exported on, its withdrawal, how much had been read, what was sent. */
  datatype Export = Export(at: nat, gone: nat, read: nat, job: S.Job, spans: seq<S.Span>)

  /** The lookup found the scope bound, and the token was withdrawn afterwards. */
  ghost predicate Authorised(b: Bounds, acts: seq<Act>, x: Export) {
    && x.at < x.gone < |acts|
    && acts[x.at].Lookup? && acts[x.at].token == x.job.tree.token && acts[x.gone] == Discard(x.job.tree.token)
    && Found(b, After(b, acts[..x.at]), x.job.tree.token, acts[x.at].now) == Some(x.job.scope)
       && x.job.scope.parent.valid
  }

  /** The job collapses what may be collapsed, and what was sent is what the job says. */
  ghost predicate JobOk(j: S.Job, clock: G.Clock, collapse: bool) {
    && j.clock == clock && j.collapsed == G.SequencesOf(j.groups)
    && if !collapse || j.tree.omitted || |j.tree.nodes| < G.MIN_NODES then j.groups == []
       else G.Selection(clock, j.tree.nodes, j.groups)
  }

  /** The tree was whole when it left, and what was sent is made from it. */
  ghost predicate Faithful(h: seq<Event>, x: Export, maxNodes: nat, clock: G.Clock, collapse: bool) {
    && x.read <= |h| && x.job.tree.complete && Whole(x.job.tree, h[..x.read], maxNodes)
    && JobOk(x.job, clock, collapse) && x.spans == S.SentSpans(x.job)
  }

  lemma FaithfulStays(h: seq<Event>, more: seq<Event>, x: Export, maxNodes: nat, clock: G.Clock, collapse: bool)
    requires Faithful(h, x, maxNodes, clock, collapse)
    ensures Faithful(h + more, x, maxNodes, clock, collapse)
  {
    hide Whole, JobOk;
    assert (h + more)[..x.read] == h[..x.read];
  }

  /** One after the other, and never the same token twice. */
  ghost predicate ExportsOk(b: Bounds, acts: seq<Act>, exports: seq<Export>) {
    && (forall i :: 0 <= i < |exports| ==> Authorised(b, acts, exports[i]))
    && (forall i, j :: 0 <= i < j < |exports| ==> exports[i].job.tree.token != exports[j].job.tree.token)
  }

  lemma AuthorisedStays(b: Bounds, acts: seq<Act>, longer: seq<Act>, x: Export)
    requires Authorised(b, acts, x) && acts <= longer
    ensures Authorised(b, longer, x)
  {
    hide After, Found;
    assert acts[..x.at] == longer[..x.at];
  }

  lemma ExportsStay(b: Bounds, acts: seq<Act>, longer: seq<Act>, exports: seq<Export>)
    requires ExportsOk(b, acts, exports) && acts <= longer
    ensures ExportsOk(b, longer, exports)
  {
    hide Authorised;
    forall i | 0 <= i < |exports| ensures Authorised(b, longer, exports[i]) {
      AuthorisedStays(b, acts, longer, exports[i]);
    }
  }

  lemma FoundWasDrawn(b: Bounds, acts: seq<Act>, i: nat, token: Token, now: int)
    requires i <= |acts| && Found(b, After(b, acts[..i]), token, now).Some?
    ensures Drawn(acts, i, token)
  {
    hide After;
    ScopesAreJustified(b, acts, i, token);
  }

  /** A token that was exported is never found again. */
  lemma ExportedIsGone(b: Bounds, acts: seq<Act>, x: Export, i: nat, token: Token, now: int)
    requires FreshTokens(acts) && Authorised(b, acts, x) && x.gone < i <= |acts|
    requires Found(b, After(b, acts[..i]), token, now).Some?
    ensures token != x.job.tree.token
  {
    hide After, Found;
    if token == x.job.tree.token {
      FoundWasDrawn(b, acts, x.at, token, acts[x.at].now);
      DiscardIsFinal(b, acts, x.gone, i, token, now);
    }
  }

  /** Recording an export whose lookup came after everything exported before. */
  lemma AddExport(b: Bounds, before: seq<Act>, acts: seq<Act>, exports: seq<Export>, x: Export)
    requires FreshTokens(acts) && ExportsOk(b, before, exports) && before <= acts
    requires Authorised(b, acts, x) && |before| <= x.at
    ensures ExportsOk(b, acts, exports + [x])
  {
    hide After, Found, FreshTokens;
    ExportsStay(b, before, acts, exports);
    forall i | 0 <= i < |exports| ensures exports[i].job.tree.token != x.job.tree.token {
      assert Authorised(b, before, exports[i]);
      ExportedIsGone(b, acts, exports[i], x.at, x.job.tree.token, acts[x.at].now);
    }
  }

  lemma WholeIsClosed(t: Tree, h: seq<Event>, maxNodes: nat)
    requires Whole(t, h, maxNodes)
    ensures S.Closed(t.nodes)
  {
    hide FirstOfFamily, Settled;
    forall i | 0 < i < |t.nodes| ensures S.Listed(t.nodes[..i], t.nodes[i].start.parent) {
      assert ParentBefore(t.nodes, i);
      var k :| 0 <= k < i && t.nodes[k].start.sequence == t.nodes[i].start.parent;
      assert t.nodes[..i][k].start.sequence == t.nodes[i].start.parent;
    }
  }

  /** A tree that is exported without being marked incomplete holds everything the server ran under its root. */
  lemma UnmarkedExportIsWhole(h: seq<Event>, x: Export, maxNodes: nat, clock: G.Clock, collapse: bool)
    requires Faithful(h, x, maxNodes, clock, collapse) && x.spans != [] && !x.spans[0].incomplete
    ensures |x.job.tree.nodes| == |Family(h[..x.read], x.job.tree.nodes[0].start.sequence)|
    ensures S.Reasons(x.job) == []
  {
    hide Settled, Family, G.Selection, G.SequencesOf, S.SentAfter, S.Reasons;
    S.SentIsTold(x.job, |x.job.tree.nodes|, 0);
    S.UnmarkedIsFinished(x.job);
  }

  /** And it sends every execution that was not collapsed, if its times can be read and those of all it runs under. */
  lemma UnmarkedExportIsComplete(h: seq<Event>, x: Export, maxNodes: nat, clock: G.Clock, collapse: bool, i: nat)
    requires Faithful(h, x, maxNodes, clock, collapse) && x.spans != [] && !x.spans[0].incomplete
    requires i < |x.job.tree.nodes| && S.TimedUpwards(x.job, i)
    ensures x.job.tree.nodes[i].start.sequence in x.job.collapsed || x.job.tree.nodes[i] in S.NodesOf(x.spans)
  {
    hide S.TimedUpwards, Settled, Family, G.Selection, G.SequencesOf, S.SentAfter, S.NodesOf, S.Reasons, S.LeavesOnly;
    var j := x.job;
    UnmarkedExportIsWhole(h, x, maxNodes, clock, collapse);
    WholeIsClosed(j.tree, h[..x.read], maxNodes);
    S.SelectionIsLeaves(j);
    if j.tree.nodes[i].start.sequence !in j.collapsed {
      S.UnmarkedHidesNothing(j, i);
    }
  }

  /**
   * An export means: a client registered the token, nobody withdrew it, it had not expired, and the last parent bound
   * to it was a valid, sampled span.
   */
  lemma ExportIsAuthorised(b: Bounds, acts: seq<Act>, exports: seq<Export>, i: nat)
    requires ExportsOk(b, acts, exports) && i < |exports|
    ensures var x := exports[i];
      var s := x.job.scope;
      && (exists from: nat, k: nat ::
            Lives(acts, x.at, x.job.tree.token, s, from) && from < k
              && BoundLast(acts, x.at, x.job.tree.token, s.parent, k))
      && !Expired(b, s, acts[x.at].now) && Exportable(s.parent)
  {
    hide After;
    var x := exports[i];
    assert Authorised(b, acts, x);
    var s := x.job.scope;
    ScopesAreJustified(b, acts, x.at, x.job.tree.token);
    var from: nat :| Lives(acts, x.at, x.job.tree.token, s, from) && BoundTo(acts, x.at, x.job.tree.token, s, from);
    var k: nat :| from < k && BoundLast(acts, x.at, x.job.tree.token, s.parent, k);
  }
}
