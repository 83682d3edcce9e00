/**
 * A tree and the brackets of the records: when every scope's records are well nested and fit the parser's bounds, what
 * is exported is what stands inside the brackets of the root (trace/spans.go, consume).
 */
module SpanBrackets {
  import opened Options
  import opened TraceEvents
  import opened TracePairing
  import opened TraceNesting
  import opened SpanFamily
  import opened SpanLinks
  import opened SpanComposition

  // ---- inside the brackets of a start

  /** Bracket `i` is that of start `n` itself or one around it, in its scope. */
  ghost predicate Around(recs: seq<Event>, i: nat, n: nat)
    requires n < |recs|
  {
    i == n || (OpenAt(recs, i, n) && recs[i].Scope() == recs[n].Scope())
  }

  /** Start `n` is inside the brackets of start `r`, and from there to itself no start looks like a marker query. */
  ghost predicate Inside(recs: seq<Event>, r: nat, n: nat)
    requires n < |recs|
  {
    && recs[n].phase == Start && Around(recs, r, n)
    && forall i :: r <= i <= n && Around(recs, i, n) ==> recs[i].scopeToken == []
  }

  /** All of them among the first `m` records, in order. */
  ghost function AllInside(recs: seq<Event>, r: nat, m: nat): seq<nat>
    requires m <= |recs|
  {
    if m == 0 then [] else AllInside(recs, r, m - 1) + if Inside(recs, r, m - 1) then [m - 1] else []
  }

  lemma {:induction false} AllInsideIs(recs: seq<Event>, r: nat, m: nat)
    requires m <= |recs|
    ensures var all := AllInside(recs, r, m);
      && (forall n: nat :: n in all <==> n < m && Inside(recs, r, n))
      && (forall i, j :: 0 <= i < j < |all| ==> all[i] < all[j] < m)
  {
    hide Inside;
    if m > 0 {
      AllInsideIs(recs, r, m - 1);
      var before := AllInside(recs, r, m - 1);
      forall i | 0 <= i < |before| ensures before[i] < m - 1 {
        assert before[i] in before;
      }
    }
  }

  // ---- one start

  /** Where `i` is innermost, the brackets around are `i` and those around `i`. */
  lemma AroundInnermost(recs: seq<Event>, i: nat, n: nat, j: nat)
    requires n < |recs| && i < n && Innermost(recs, i, n) && j < n
    ensures Around(recs, j, n) <==> Around(recs, j, i)
  {
    hide Depth;
  }

  lemma AroundIsBefore(recs: seq<Event>, i: nat, n: nat)
    requires n < |recs| && Around(recs, i, n)
    ensures i <= n
  {
  }

  /** A start below another is inside exactly when it is unmarked and the one above it is inside. */
  lemma InsideBelow(recs: seq<Event>, r: nat, i: nat, n: nat)
    requires n < |recs| && i < n && Innermost(recs, i, n) && recs[n].phase == Start && r != n
    ensures Inside(recs, r, n) <==> recs[n].scopeToken == [] && Inside(recs, r, i)
  {
    assert recs[i].phase == Start && recs[i].Scope() == recs[n].Scope();
    hide Innermost, Depth, Around;
    forall j: nat | j < n ensures Around(recs, j, n) <==> Around(recs, j, i) {
      AroundInnermost(recs, i, n, j);
    }
    assert Around(recs, n, n) && Around(recs, i, i) && Around(recs, i, n) by { AroundItself(recs, i, n); }
    if Around(recs, r, n) {
      AroundIsBefore(recs, r, n);
    }
    if Around(recs, r, i) {
      AroundIsBefore(recs, r, i);
    }
    if Inside(recs, r, i) && recs[n].scopeToken == [] {
      forall j | r <= j <= n && Around(recs, j, n) ensures recs[j].scopeToken == [] {
        if j < n {
          AroundInnermost(recs, i, n, j);
          AroundIsBefore(recs, j, i);
        }
      }
    }
  }

  lemma AroundItself(recs: seq<Event>, i: nat, n: nat)
    requires n < |recs| && i < n && Innermost(recs, i, n)
    ensures Around(recs, n, n) && Around(recs, i, i) && Around(recs, i, n)
  {
    hide Depth;
  }

  /** A start outside all brackets is inside no other. */
  lemma InsideNothing(recs: seq<Event>, r: nat, n: nat)
    requires WellNested(recs) && n < |recs| && Depth(recs, n, recs[n].Scope()) == 0 && r != n
    ensures !Inside(recs, r, n)
  {
    hide WellNested;
    if Around(recs, r, n) {
      DepthIsNatural(recs, r, recs[n].Scope());
    }
  }

  lemma HasInnermost(recs: seq<Event>, n: nat) returns (i: nat)
    requires WellNested(recs) && n < |recs| && Depth(recs, n, recs[n].Scope()) != 0
    ensures i < n && Innermost(recs, i, n)
  {
    hide WellNested, Depth, Innermost, Level;
    RunTracks(recs, n);
    i := TopIsInnermost(recs, n, After(recs, n).Stack(recs[n].Scope()));
  }

  lemma OrdinalIsOwn(recs: seq<Event>, i: nat, n: nat)
    requires i < |recs| && n < |recs| && recs[i].phase == Start && recs[n].phase == Start
    ensures Ordinal(recs, i + 1) == Ordinal(recs, n + 1) <==> i == n
  {
    if i < n {
      OrdinalGrows(recs, i, n);
    } else if n < i {
      OrdinalGrows(recs, n, i);
    }
  }

  // ---- the family

  ghost predicate Lists(recs: seq<Event>, fam: seq<Event>, places: seq<nat>) {
    |fam| == |places| && forall i :: 0 <= i < |fam| ==> places[i] < |recs| && fam[i] == Emitted(recs, places[i])
  }

  /** Number of a start. */
  ghost predicate StartAt(recs: seq<Event>, n: nat, number: nat) {
    n < |recs| && recs[n].phase == Start && number == Ordinal(recs, n + 1)
  }

  lemma ListedByNumber(recs: seq<Event>, fam: seq<Event>, places: seq<nat>, n: nat)
    requires WellNested(recs) && Lists(recs, fam, places) && n < |recs| && recs[n].phase == Start
    requires forall p :: p in places ==> p < |recs| && recs[p].phase == Start
    ensures Member(fam, Ordinal(recs, n + 1)) <==> n in places
  {
    hide WellNested, Emitted, Ordinal;
    forall i | 0 <= i < |fam| ensures fam[i].sequence == Ordinal(recs, n + 1) <==> places[i] == n {
      assert places[i] in places;
      StartIsNumbered(recs, places[i]);
      OrdinalIsOwn(recs, places[i], n);
    }
  }

  lemma BelongsInside(recs: seq<Event>, r: nat, m: nat, fam: seq<Event>)
    requires WellNested(recs) && r < |recs| && recs[r].phase == Start && m < |recs|
    requires Lists(recs, fam, AllInside(recs, r, m))
    ensures Belongs(fam, Ordinal(recs, r + 1), Emitted(recs, m)) <==> Inside(recs, r, m)
  {
    hide WellNested, Emitted, Ordinal, Inside, Member, Lists, AllInside, Innermost, Depth;
    var e := Emitted(recs, m);
    AllInsideIs(recs, r, m);
    InsideStarts(recs, r);
    RecordIsExecution(recs, m);
    if recs[m].phase == Start {
      StartIsNumbered(recs, m);
      OrdinalGrows(recs, m, m + 1);
      OrdinalIsOwn(recs, m, r);
      if m == r {
        InsideItself(recs, r);
      } else if Depth(recs, m, recs[m].Scope()) == 0 {
        InsideNothing(recs, r, m);
      } else {
        var i := HasInnermost(recs, m);
        InsideBelow(recs, r, i, m);
        InnermostIsBelow(recs, i, m);
        ListedByNumber(recs, fam, AllInside(recs, r, m), i);
      }
    }
  }

  lemma InsideStarts(recs: seq<Event>, r: nat)
    ensures forall n: nat :: n < |recs| && Inside(recs, r, n) ==> recs[n].phase == Start
  {
  }

  lemma InsideItself(recs: seq<Event>, r: nat)
    requires r < |recs| && recs[r].phase == Start
    ensures Inside(recs, r, r) <==> recs[r].scopeToken == []
  {
    assert Around(recs, r, r);
  }

  /** What leaves the parser keeps kind, phase and token, and has a number. */
  lemma RecordIsExecution(recs: seq<Event>, n: nat)
    requires WellNested(recs) && n < |recs|
    ensures var e := Emitted(recs, n);
      e.IsExecution() && e.phase == recs[n].phase && e.scopeToken == recs[n].scopeToken
  {
    hide Depth, OpenScopes, Innermost, TooDeep, After;
  }

  lemma ListsMore(recs: seq<Event>, fam: seq<Event>, places: seq<nat>, m: nat)
    requires Lists(recs, fam, places) && m < |recs|
    ensures Lists(recs, fam + [Emitted(recs, m)], places + [m])
  {
    hide Emitted;
  }

  lemma AllInsideNext(recs: seq<Event>, r: nat, m: nat)
    requires m < |recs|
    ensures AllInside(recs, r, m + 1)
      == if Inside(recs, r, m) then AllInside(recs, r, m) + [m] else AllInside(recs, r, m)
  {
    hide Inside;
  }

  lemma EventsNext(recs: seq<Event>, h: seq<Event>, m: nat)
    requires EmittedFor(recs, h) && m < |recs|
    ensures |h| == |recs| && h[..m + 1] == h[..m] + [Emitted(recs, m)]
  {
    hide Emitted;
  }

  /** The family of a start lists exactly what is inside its brackets. */
  lemma {:induction false} FamilyIsInside(recs: seq<Event>, h: seq<Event>, r: nat, m: nat)
    requires WellNested(recs) && EmittedFor(recs, h) && r < |recs| && recs[r].phase == Start && m <= |recs|
    ensures |h| == |recs| && Lists(recs, Family(h[..m], Ordinal(recs, r + 1)), AllInside(recs, r, m))
  {
    hide *;
    EmittedAll(recs, h);
    if m == 0 {
      NothingInside(recs, h, r);
    } else {
      var root, before := Ordinal(recs, r + 1), h[..m - 1];
      FamilyIsInside(recs, h, r, m - 1);
      EventsNext(recs, h, m - 1);
      FamilyAppend(before, Emitted(recs, m - 1), root);
      AllInsideNext(recs, r, m - 1);
      BelongsInside(recs, r, m - 1, Family(before, root));
      ListsMore(recs, Family(before, root), AllInside(recs, r, m - 1), m - 1);
    }
  }

  lemma NothingInside(recs: seq<Event>, h: seq<Event>, r: nat)
    requires r < |recs|
    ensures Lists(recs, Family(h[..0], Ordinal(recs, r + 1)), AllInside(recs, r, 0))
  {
    hide Ordinal, Emitted;
  }

  // ---- an exported tree

  lemma {:induction false} MemberIsEvent(h: seq<Event>, root: nat, i: nat) returns (j: nat)
    requires i < |Family(h, root)|
    ensures j < |h| && Family(h, root)[i] == h[j] && Collects(h[j])
  {
    hide Member;
    var n := |h| - 1;
    assert h == h[..n] + [h[n]];
    FamilyAppend(h[..n], h[n], root);
    hide Family;
    j := n;
    if i < |Family(h[..n], root)| {
      j := MemberIsEvent(h[..n], root, i);
    }
  }

  /** Record `f` is the closing bracket of start `n`, and the node has it unless it looks like a marker query. */
  ghost predicate ClosedAs(recs: seq<Event>, n: nat, f: nat, finish: Option<Event>) {
    && n < f < |recs| && recs[f].phase != Start && Innermost(recs, n, f)
    && finish == if recs[f].scopeToken == [] then Some(Emitted(recs, f)) else None
  }

  /** The nodes stand for the first of these starts, and each has its own closing bracket. */
  ghost predicate NodesAt(recs: seq<Event>, t: Tree, places: seq<nat>, maxNodes: nat) {
    && |t.nodes| == Min(maxNodes, |places|) && t.omitted == (|places| > maxNodes)
    && forall i :: 0 <= i < |t.nodes| ==> NodeAt(recs, t, places, i)
  }

  ghost predicate NodeAt(recs: seq<Event>, t: Tree, places: seq<nat>, i: nat)
    requires i < |t.nodes| && i < |places|
  {
    && places[i] < |recs| && t.nodes[i].start == Emitted(recs, places[i])
    && exists f: nat :: ClosedAs(recs, places[i], f, t.nodes[i].finish)
  }

  lemma NodeIsClosed(recs: seq<Event>, h: seq<Event>, n: nat, finish: Option<Event>)
    requires WellNested(recs) && EmittedFor(recs, h) && n < |recs| && recs[n].phase == Start
    requires Settled(h, SpanLinks.F.Node(Emitted(recs, n), finish))
    ensures exists f: nat :: ClosedAs(recs, n, f, finish)
  {
    hide WellNested, Emitted, Ordinal, Innermost;
    var f: nat :| FinishOf(h, Emitted(recs, n), f) && finish == if h[f].scopeToken == [] then Some(h[f]) else None;
    RecordIsExecution(recs, f);
    var i := FinishIsMatched(recs, f);
    InnermostIsBelow(recs, i, f);
    StartIsNumbered(recs, n);
    OrdinalIsOwn(recs, i, n);
    assert ClosedAs(recs, n, f, finish);
  }

  /**
   * When the records are well nested within the bounds, a tree that is exported belongs to a statement outside all
   * brackets, and its nodes are the first unmarked starts inside the brackets of that statement, each with the finish
   * that closes it.
   */
  lemma WholeIsInside(recs: seq<Event>, h: seq<Event>, t: Tree, maxNodes: nat) returns (r: nat)
    requires WellNested(recs) && EmittedFor(recs, h) && Whole(t, h, maxNodes)
    ensures r < |recs| && recs[r].phase == Start && recs[r].kind == Statement && Depth(recs, r, recs[r].Scope()) == 0
    ensures NodesAt(recs, t, AllInside(recs, r, |recs|), maxNodes)
  {
    hide *;
    r := RootRecord(recs, h, t, maxNodes);
    FamilyIsInside(recs, h, r, |recs|);
    EmittedAll(recs, h);
    assert h[..|recs|] == h;
    NodesArePlaced(recs, h, t, maxNodes, r, AllInside(recs, r, |recs|));
  }

  lemma NodesArePlaced(recs: seq<Event>, h: seq<Event>, t: Tree, maxNodes: nat, r: nat, places: seq<nat>)
    requires WellNested(recs) && EmittedFor(recs, h) && Whole(t, h, maxNodes) && places == AllInside(recs, r, |recs|)
    requires Lists(recs, Family(h, t.nodes[0].start.sequence), places)
    ensures NodesAt(recs, t, places, maxNodes)
  {
    hide WellNested, Emitted, Settled, AllInside, Family, EmittedFor, NodeAt, Inside, ParentBefore;
    AllInsideIs(recs, r, |recs|);
    InsideStarts(recs, r);
    forall i | 0 <= i < |t.nodes| ensures NodeAt(recs, t, places, i) {
      assert places[i] in places;
      NodeIsPlaced(recs, h, t, maxNodes, places, i);
    }
  }

  lemma NodeIsPlaced(recs: seq<Event>, h: seq<Event>, t: Tree, maxNodes: nat, places: seq<nat>, i: nat)
    requires WellNested(recs) && EmittedFor(recs, h) && Whole(t, h, maxNodes) && i < |t.nodes| <= |places|
    requires Lists(recs, Family(h, t.nodes[0].start.sequence), places) && places[i] < |recs|
    requires recs[places[i]].phase == Start
    ensures NodeAt(recs, t, places, i)
  {
    hide WellNested, Emitted, Depth, Settled, ClosedAs, Family, EmittedFor, ParentBefore;
    NodeIsClosed(recs, h, places[i], t.nodes[i].finish);
  }

  lemma EmittedAll(recs: seq<Event>, h: seq<Event>)
    requires EmittedFor(recs, h)
    ensures |h| == |recs|
  {
  }

  lemma RootRecord(recs: seq<Event>, h: seq<Event>, t: Tree, maxNodes: nat) returns (r: nat)
    requires WellNested(recs) && EmittedFor(recs, h) && Whole(t, h, maxNodes)
    ensures r < |recs| && recs[r].phase == Start && recs[r].kind == Statement && Depth(recs, r, recs[r].Scope()) == 0
    ensures t.nodes != [] && t.nodes[0].start.sequence == Ordinal(recs, r + 1)
  {
    hide WellNested, Emitted, Ordinal, Depth, Settled, Family;
    r := MemberIsEvent(h, t.nodes[0].start.sequence, 0);
    RecordIsExecution(recs, r);
    StartIsNumbered(recs, r);
    assert h[r] == t.nodes[0].start;
  }
}
