/**
 * Frames that outlive their tree (trace/spans.go, flush). An export deletes the frames of the nodes of its tree only; a
 * member past the limit has a frame but no node, and a finish that looks like a marker query does not remove it.
 */
module SpanLeaks {
  import opened Options
  import opened TraceEvents
  import opened TracePairing
  import opened SpanFamily
  import opened SpanLinks
  import opened SpanComposition
  import opened SpanMachine
  import R = SpanRegistry
  import F = SpanForest
  import SpanTally

  // ---- exactly when

  /** Number `n` is a member of the family that found no room in the tree, and its finish carried a marker's token. */
  ghost predicate Leaks(h: seq<Event>, root: nat, maxNodes: nat, n: nat) {
    var fam := Family(h, root);
    exists i :: maxNodes <= i < |fam| && fam[i].sequence == n && FinishWasMarked(h, fam[i])
  }

  lemma MarkedIsNotEnded(h: seq<Event>, m: Event)
    requires History(h) && IsStart(h, m) && FinishWasMarked(h, m)
    ensures !Ended(h, m.sequence)
  {
    hide History, Starts;
    var j: nat :| FinishOf(h, m, j) && h[j].scopeToken != [];
    if Ended(h, m.sequence) {
      var k :| 0 <= k < |h| && Ends(h[k]) && h[k].sequence == m.sequence;
      OneFinish(h, j, k);
    }
  }

  lemma OverWithoutEndIsMarked(h: seq<Event>, m: Event)
    requires History(h) && IsStart(h, m) && !Open(h, m.sequence) && !Ended(h, m.sequence)
    ensures FinishWasMarked(h, m)
  {
    hide History, SameExecution, Starts;
    var j :| 0 <= j < |h| && h[j].PairedFinish() && h[j].sequence == m.sequence;
    MatchedFinish(h, m, j);
    assert FinishOf(h, m, j);
  }

  /** The index of a tree knows exactly the first members of the family. */
  lemma IndexIsFirst(t: Tree, h: seq<Event>, maxNodes: nat, i: nat)
    requires TreeOk(t, h, maxNodes) && IndexOk(t) && History(h)
    requires i < |Family(h, t.nodes[0].start.sequence)|
    ensures Family(h, t.nodes[0].start.sequence)[i].sequence in t.index <==> i < maxNodes
  {
    hide Family, NodeOk, History;
    var fam := Family(h, t.nodes[0].start.sequence);
    NumberedOf(h);
    FamilyIsClosed(h, t.nodes[0].start.sequence);
    if i < maxNodes {
      assert t.nodes[i].start == fam[i];
    }
  }

  lemma ExportedOwnFrame(f: Forest, h: seq<Event>, id: nat, maxNodes: nat, n: nat)
    requires Linked(f, h, id, maxNodes) && History(h) && f.made[id].complete
    ensures n in f.frames && f.frames[n] == id && n !in f.made[id].index
      <==> Leaks(h, f.made[id].nodes[0].start.sequence, maxNodes, n)
  {
    hide History, Family, Ended, FinishWasMarked, Open, IsStart;
    var t := f.made[id];
    var root := t.nodes[0].start.sequence;
    var fam := Family(h, root);
    assert TreeOk(t, h, maxNodes) && IndexOk(t) && FramesOk(f.frames, id, fam, h);
    FamilyHasFinished(t, h, maxNodes);
    NumberedOf(h);
    hide TreeOk, IndexOk;
    if n in f.frames && f.frames[n] == id && n !in t.index {
      var i :| 0 <= i < |fam| && fam[i].sequence == n;
      IndexIsFirst(t, h, maxNodes, i);
      MembersAreStarts(h, root, i);
      OverWithoutEndIsMarked(h, fam[i]);
    }
    if Leaks(h, root, maxNodes, n) {
      var i :| maxNodes <= i < |fam| && fam[i].sequence == n && FinishWasMarked(h, fam[i]);
      IndexIsFirst(t, h, maxNodes, i);
      MembersAreStarts(h, root, i);
      MarkedIsNotEnded(h, fam[i]);
      assert Member(fam, n);
    }
  }

  lemma IndexIsOwn(f: Forest, h: seq<Event>, id: nat, maxNodes: nat, n: nat)
    requires Linked(f, h, id, maxNodes) && n in f.made[id].index && n in f.frames
    ensures f.frames[n] == id
  {
    hide NodeOk, Family, Ended;
    NodesAreMembers(f.made[id], h, maxNodes);
  }

  /**
   * After an export, a frame of the tree is left for a number exactly when its start was past the limit and its finish
   * looked like a marker query. The frames of all other trees are what they were.
   */
  lemma FrameOutlivesTree(f: Forest, h: seq<Event>, id: nat, answer: Option<R.Scope>, maxNodes: nat, n: nat)
    requires AllLinked(f, h, maxNodes) && History(h) && id in f.live && id < |f.made| && F.Exports(f, id, answer)
    ensures f.made[id].nodes != []
    ensures var frames := F.Flushed(f, id, answer).frames;
      && (n in frames && frames[n] == id <==> Leaks(h, f.made[id].nodes[0].start.sequence, maxNodes, n))
      && (n in f.frames && f.frames[n] != id ==> n in frames)
      && (n in frames ==> n in f.frames && frames[n] == f.frames[n])
  {
    hide Leaks, History, FrameLive, TreeOk, IndexOk, FramesOk, F.Sound, F.Indexed;
    assert Linked(f, h, id, maxNodes);
    ExportedOwnFrame(f, h, id, maxNodes, n);
    if n in f.made[id].index && n in f.frames {
      IndexIsOwn(f, h, id, maxNodes, n);
    }
    assert f.made[id].nodes != [] by { LinkedIsRooted(f, h, maxNodes); }
  }

  // ---- for good

  /** A frame whose tree is not followed any more. */
  predicate Stale(f: Forest, n: nat) {
    n in f.frames && f.frames[n] !in f.live
  }

  /** The frame is as stale as it was, and has the same owner. */
  predicate StillStale(f: Forest, g: Forest, n: nat)
    requires Stale(f, n)
  {
    n in g.frames && g.frames[n] == f.frames[n] && f.frames[n] !in g.live
  }

  lemma StaleIsOver(f: Forest, h: seq<Event>, maxNodes: nat, n: nat)
    requires AllLinked(f, h, maxNodes) && Stale(f, n)
    ensures 1 <= n <= |Starts(h)| && !Open(h, n) && f.frames[n] < |f.made|
  {
    hide Open, Starts, Linked;
    assert FrameLive(f, h, n);
  }

  lemma ClearedStale(f: Forest, attachment: nat, n: nat)
    requires Stale(f, n) && F.Rooted(f)
    ensures StillStale(f, F.Cleared(f), n) && StillStale(f, F.ClearedAttachment(f, attachment), n)
  {
  }

  lemma StartedStale(f: Forest, h: seq<Event>, e: Event, announced: bool, found: bool, maxNodes: nat, n: nat)
    requires AllLinked(f, h, maxNodes) && History(h + [e]) && Collects(e) && Stale(f, n)
    ensures F.Sound(f) && StillStale(f, F.Started(f, e, announced, found, maxNodes), n)
  {
    hide Open, Starts, Linked, History, Collects, F.Joined, F.Activated, F.Opened, F.Sound, F.Indexed, FrameLive;
    hide AllLinked;
    SoundOf(f, h, maxNodes);
    StaleIsOver(f, h, maxNodes, n);
    NewestStart(h, e) by { assert e.PairedStart() by { CollectedIsStart(e); } }
    var (g, tree) := F.Opened(f, e, announced);
    OpenedOwner(f, e, announced);
    ActivatedKeeps(g, e);
    if tree.Some? {
      if tree.value != |f.made| {
        OwnerIsLive(f, h, e, tree.value, maxNodes);
      }
      JoinedStale(F.Activated(g, e), tree.value, e, found, maxNodes, n);
    }
  }

  lemma CollectedIsStart(e: Event)
    requires Collects(e)
    ensures e.PairedStart()
  {
  }

  /** A start goes to a new tree or to the one of its parent. */
  lemma OpenedOwner(f: Forest, e: Event, announced: bool)
    ensures var (g, tree) := F.Opened(f, e, announced);
      && g.frames == f.frames && g.made[..|f.made|] == f.made
      && ((g.live == f.live && tree == F.Owner(f, e.parent))
          || (g.live == f.live + {|f.made|} && tree == Some(|f.made|)))
    ensures F.Sound(f) ==> var (g, tree) := F.Opened(f, e, announced); tree.Some? ==> tree.value < |g.made|
  {
  }

  lemma JoinedStale(f: Forest, id: nat, e: Event, found: bool, maxNodes: nat, n: nat)
    requires id < |f.made| && Stale(f, n) && f.frames[n] != id && n != e.sequence
    ensures StillStale(f, F.Joined(f, id, e, found, maxNodes), n)
  {
  }

  lemma FinishedStale(f: Forest, h: seq<Event>, e: Event, maxNodes: nat, n: nat)
    requires AllLinked(f, h, maxNodes) && History(h + [e]) && Ends(e) && Stale(f, n)
    ensures F.Sound(f) && StillStale(f, F.Finished(f, e), n)
  {
    hide Starts, Linked, F.Sound, FrameLive, AllLinked;
    SoundOf(f, h, maxNodes);
    StaleIsOver(f, h, maxNodes, n);
    FinishIsNotAgain(h, e, n);
    FinishedFrames(f, e);
  }

  lemma FinishedFrames(f: Forest, e: Event)
    requires F.Sound(f)
    ensures F.Finished(f, e).frames == f.frames - {e.sequence} && F.Finished(f, e).live == f.live
  {
    hide F.Deactivated;
    DeactivatedFields(f, e.sequence);
  }

  lemma FinishIsNotAgain(h: seq<Event>, e: Event, n: nat)
    requires History(h + [e]) && Ends(e) && 1 <= n <= |Starts(h)| && !Open(h, n)
    ensures e.sequence != n
  {
    hide Starts, Numbered, FinishesMatch, AlwaysNested, ParentsOpen, Phased;
    var g := h + [e];
    var j :| 0 <= j < |h| && h[j].PairedFinish() && h[j].sequence == n;
    assert g[j] == h[j] && g[|h|] == e;
  }

  lemma ReadStale(c: Config, f: Forest, h: seq<Event>, e: Event, announced: bool, found: bool, n: nat)
    requires AllLinked(f, h, c.maxNodes) && History(h + [e]) && Stale(f, n) && F.Sound(f) && F.Rooted(f)
    ensures StillStale(f, Consumed(c, f, e, announced, found), n)
  {
    hide History, AllLinked, F.Sound, F.Rooted, F.Started, F.Finished, F.Cleared, F.ClearedAttachment;
    ClearedStale(f, e.attachment, n);
    EventPhase(h, e);
    if e.kind != Gap && e.scopeToken == [] && e.sequence > 0 {
      if e.phase == Phase.Start {
        StartedStale(f, h, e, announced, found, c.maxNodes, n);
      } else {
        FinishedStale(f, h, e, c.maxNodes, n);
      }
    }
  }

  lemma EventPhase(h: seq<Event>, e: Event)
    requires History(h + [e])
    ensures PhaseOk(e)
  {
    hide Numbered, FinishesMatch, FinishesOnce, AlwaysNested, ParentsOpen;
    assert (h + [e])[|h|] == e;
  }

  lemma {:induction false} SweptStale(f: Forest, visits: seq<Visit>, n: nat)
    requires Stale(f, n)
    requires forall i :: 0 <= i < |visits| && visits[i].id < |f.made| ==>
      visits[i].id != f.frames[n] && n !in f.made[visits[i].id].index
    ensures StillStale(f, Swept(f, visits), n)
  {
    if visits != [] {
      SweptStale(f, visits[..|visits| - 1], n);
      SweptFields(f, visits[..|visits| - 1]);
    }
  }

  lemma LiveIndexIsNotStale(f: Forest, h: seq<Event>, maxNodes: nat, id: nat, n: nat)
    requires AllLinked(f, h, maxNodes) && Stale(f, n) && id in f.live
    ensures id < |f.made| && n !in f.made[id].index
  {
    hide Linked, FrameLive, F.Sound;
    assert Linked(f, h, id, maxNodes);
    LinkedIsMade(f, h, id, maxNodes);
    if n in f.made[id].index {
      IndexIsOwn(f, h, id, maxNodes, n);
    }
  }

  /** The flush of a turn meets a forest that is linked to what has been read. */
  lemma FlushIsLinked(c: Config, f: Forest, h: seq<Event>, cause: Cause)
    requires F.Sound(f) && F.Rooted(f) && AllLinked(f, h, c.maxNodes) && Flushes(f, cause)
    requires cause.Took? ==> History(h + [cause.e])
    ensures AllLinked(Read(c, f, cause), if cause.Took? then h + [cause.e] else h, c.maxNodes)
  {
    hide History, AllLinked, F.Sound, F.Rooted, F.Finished, F.Completes;
    if cause.Took? {
      EventPhase(h, cause.e);
      FinishedKeeps(f, h, cause.e, c.maxNodes);
    }
  }

  lemma FlushStale(b: R.Bounds, acts: seq<R.Act>, since: nat, until: nat, f: Forest, h: seq<Event>, maxNodes: nat,
                   visits: seq<Visit>, n: nat)
    requires AllLinked(f, h, maxNodes) && Stale(f, n) && FlushOk(b, acts, since, until, f, visits)
    ensures StillStale(f, Swept(f, visits), n)
  {
    hide AllLinked, VisitOk;
    forall i | 0 <= i < |visits| && visits[i].id < |f.made|
      ensures visits[i].id != f.frames[n] && n !in f.made[visits[i].id].index
    {
      assert Visited(visits, visits[i].id);
      LiveIndexIsNotStale(f, h, maxNodes, visits[i].id, n);
    }
    SweptStale(f, visits, n);
  }

  lemma SweptNothing(f: Forest)
    ensures Swept(f, []) == f
  {
  }

  /** One turn leaves a stale frame alone. */
  lemma TurnLeavesStale(c: Config, acts: seq<R.Act>, f: Forest, t: Turn, g: Forest, h: seq<Event>, n: nat)
    requires TurnOk(c, acts, f, t, g) && AllLinked(f, h, c.maxNodes) && Stale(f, n)
    requires t.cause.Took? ==> History(h + [t.cause.e])
    ensures StillStale(f, g, n)
  {
    hide AllLinked, History, F.Sound, F.Rooted, CauseOk, FlushOk, Consumed, Swept, Flushes;
    var r := Read(c, f, t.cause);
    if t.cause.Took? {
      ReadStale(c, f, h, t.cause.e, t.cause.announced.Some?, t.cause.found.Some?, n);
    }
    if Flushes(f, t.cause) {
      FlushIsLinked(c, f, h, t.cause);
      var read := if t.cause.Took? then h + [t.cause.e] else h;
      FlushStale(c.bounds, acts, t.since, t.until, r, read, c.maxNodes, t.visits, n);
    }
    SweptNothing(r);
  }

  lemma {:induction false} EventsPrefix(turns: seq<Turn>, k: nat)
    requires k < |turns|
    ensures EventsOf(turns[..k + 1]) == EventsOf(turns[..k]) + (if turns[k].cause.Took? then [turns[k].cause.e] else [])
    ensures EventsOf(turns[..k + 1]) <= EventsOf(turns)
    decreases |turns|
  {
    assert turns[..k + 1][..k] == turns[..k];
    if k + 1 < |turns| {
      var some := turns[..|turns| - 1];
      EventsPrefix(some, k);
      assert some[..k + 1] == turns[..k + 1];
    } else {
      assert turns[..k + 1] == turns;
    }
  }

  lemma RunHistory(turns: seq<Turn>, k: nat)
    requires k < |turns| && History(EventsOf(turns))
    ensures turns[k].cause.Took? ==> History(EventsOf(turns[..k]) + [turns[k].cause.e])
  {
    hide History, EventsOf;
    EventsPrefix(turns, k);
    HistoryPrefix(EventsOf(turns), |EventsOf(turns[..k + 1])|);
    assert EventsOf(turns)[..|EventsOf(turns[..k + 1])|] == EventsOf(turns[..k + 1]);
  }

  /** Over a whole run, whatever happens after the export: the frame stays for good. */
  lemma {:induction false} LeakIsForever(c: Config, acts: seq<R.Act>, r: Run, k: nat, l: nat, n: nat)
    requires Steps(c, acts, r) && History(EventsOf(r.turns)) && k <= l <= |r.turns| && Stale(r.forests[k], n)
    ensures StillStale(r.forests[k], r.forests[l], n)
    decreases l
  {
    hide TurnOk, AllLinked, EventsOf, History;
    if k < l {
      LeakIsForever(c, acts, r, k, l - 1, n);
      RunHistory(r.turns, l - 1);
      TurnLeavesStale(c, acts, r.forests[l - 1], r.turns[l - 1], r.forests[l], EventsOf(r.turns[..l - 1]), n);
    }
  }

  // ---- how many there can be

  /** The frames whose tree is not followed any more, or takes nothing in any more. */
  function DeadFrames(f: Forest): set<nat> {
    set n | n in f.frames && (Stale(f, n) || (f.frames[n] < |f.made| && f.made[f.frames[n]].complete))
  }

  function StaleFrames(f: Forest): set<nat> {
    set n | n in f.frames && Stale(f, n)
  }

  /** The table is not over its bound, and not full of dead frames. */
  ghost predicate Roomy(f: Forest) {
    |f.frames| <= F.MAX_FRAMES && |DeadFrames(f)| < F.MAX_FRAMES
  }

  /** No more frames and no more dead ones. */
  ghost predicate Slighter(f: Forest, g: Forest) {
    g.frames.Keys <= f.frames.Keys && DeadFrames(g) <= DeadFrames(f)
  }

  lemma FrameCount(f: Forest)
    ensures |f.frames| == |f.frames.Keys| && DeadFrames(f) <= f.frames.Keys && StaleFrames(f) <= DeadFrames(f)
  {
  }

  lemma SlighterIsRoomy(f: Forest, g: Forest)
    requires Roomy(f) && Slighter(f, g)
    ensures Roomy(g)
  {
    hide DeadFrames;
    FrameCount(f);
    FrameCount(g);
    SpanTally.Fewer(g.frames.Keys, f.frames.Keys);
    SpanTally.Fewer(DeadFrames(g), DeadFrames(f));
  }

  lemma WithoutIsSlighter(f: Forest, gone: set<nat>)
    requires gone <= f.live
    ensures Slighter(f, F.Without(f, gone))
  {
  }

  lemma ClearedIsSlighter(f: Forest, attachment: nat)
    requires F.Rooted(f)
    ensures Slighter(f, F.Cleared(f)) && Slighter(f, F.ClearedAttachment(f, attachment))
  {
    WithoutIsSlighter(f, f.live);
    WithoutIsSlighter(f, F.TreesOf(f, attachment));
    SameFrames(F.Without(f, f.live), F.Cleared(f));
    if attachment != 0 {
      SameFrames(F.Without(f, F.TreesOf(f, attachment)), F.ClearedAttachment(f, attachment));
    }
  }

  lemma SameFrames(f: Forest, g: Forest)
    requires g.frames == f.frames && g.made == f.made && g.live == f.live
    ensures DeadFrames(g) == DeadFrames(f) && Slighter(f, g) && StaleFrames(g) == StaleFrames(f)
  {
  }

  lemma FlushedIsSlighter(f: Forest, id: nat, answer: Option<R.Scope>)
    requires id < |f.made| && id in f.live
    ensures Slighter(f, F.Flushed(f, id, answer))
  {
    if answer.None? {
      WithoutIsSlighter(f, {id});
    }
  }

  lemma {:induction false} SweptIsSlighter(f: Forest, visits: seq<Visit>)
    requires OncePerTree(visits) && forall i :: 0 <= i < |visits| ==> visits[i].id in f.live
    ensures Slighter(f, Swept(f, visits))
  {
    hide Slighter, F.Flushed, DeadFrames;
    if visits == [] {
      SameFrames(f, f);
    } else {
      var n := |visits| - 1;
      var some, v := visits[..n], visits[n];
      SweptIsSlighter(f, some);
      var g := Swept(f, some);
      SweptFields(f, some);
      SweptLive(f, some, v.id);
      if v.id < |g.made| {
        FlushedIsSlighter(g, v.id, v.answer);
        SlighterStill(f, g, F.Flushed(g, v.id, v.answer));
      }
    }
  }

  lemma SlighterStill(f: Forest, g: Forest, h: Forest)
    requires Slighter(f, g) && Slighter(g, h)
    ensures Slighter(f, h)
  {
    hide DeadFrames;
  }

  /** A start takes a frame only while there is room, and for a tree that is followed and whose root still runs. */
  lemma JoinedIsRoomy(f: Forest, id: nat, e: Event, found: bool, maxNodes: nat)
    requires id < |f.made| && id in f.live && !f.made[id].complete && Roomy(f)
    ensures Roomy(F.Joined(f, id, e, found, maxNodes))
  {
    var g := F.Joined(f, id, e, found, maxNodes);
    if !found || |f.frames| >= F.MAX_FRAMES {
      WithoutIsSlighter(f, {id});
      SlighterIsRoomy(f, g);
    } else {
      assert g.frames == f.frames[e.sequence := id];
      assert DeadFrames(g) <= DeadFrames(f);
      hide DeadFrames;
      SpanTally.Fewer(DeadFrames(g), DeadFrames(f));
      SpanTally.OneMore(f.frames, e.sequence, id);
    }
  }

  /** The tree of a start's parent is followed, and its root still runs. */
  lemma OwnerIsRunning(f: Forest, h: seq<Event>, e: Event, id: nat, maxNodes: nat)
    requires AllLinked(f, h, maxNodes) && Collects(e) && History(h + [e]) && F.Owner(f, e.parent) == Some(id)
    ensures id in f.live && id < |f.made| && !f.made[id].complete
  {
    hide History, Starts, Open, F.Sound, TreeOk, IndexOk, Family, FrameLive, Ended;
    OwnerIsLive(f, h, e, id, maxNodes);
    LinkedIsRooted(f, h, maxNodes);
    assert Linked(f, h, id, maxNodes);
    ParentIsOpen(f, h, e, maxNodes);
    HistoryBefore(h, e);
    assert Member(Family(h, f.made[id].nodes[0].start.sequence), e.parent);
    if f.made[id].complete {
      FamilyHasFinished(f.made[id], h, maxNodes);
    }
  }

  lemma ParentIsOpen(f: Forest, h: seq<Event>, e: Event, maxNodes: nat)
    requires AllLinked(f, h, maxNodes) && Collects(e) && History(h + [e]) && e.parent in f.frames
    ensures Open(h, e.parent)
  {
    hide History, Starts, Open, F.Sound, Linked;
    assert FrameLive(f, h, e.parent);
    NewestStart(h, e);
  }

  lemma StartedIsRoomy(f: Forest, h: seq<Event>, e: Event, announced: bool, found: bool, maxNodes: nat)
    requires AllLinked(f, h, maxNodes) && History(h + [e]) && Collects(e) && Roomy(f)
    ensures F.Sound(f) && Roomy(F.Started(f, e, announced, found, maxNodes))
  {
    hide History, Collects, F.Joined, F.Activated, F.Opened, F.Sound, AllLinked, Roomy, F.TakesPending;
    SoundOf(f, h, maxNodes);
    var (g, tree) := F.Opened(f, e, announced);
    OpenedIsRoomy(f, e, announced);
    OpenedOwner(f, e, announced);
    ActivatedKeeps(g, e);
    ActivatedIsRoomy(g, e);
    if tree.Some? {
      OpenedRuns(f, h, e, announced, maxNodes);
      JoinedIsRoomy(F.Activated(g, e), tree.value, e, found, maxNodes);
    }
  }

  lemma OpenedIsRoomy(f: Forest, e: Event, announced: bool)
    requires F.Sound(f) && Roomy(f)
    ensures Roomy(F.Opened(f, e, announced).0)
  {
    var g := F.Opened(f, e, announced).0;
    assert Slighter(f, g);
    SlighterIsRoomy(f, g);
  }

  lemma ActivatedIsRoomy(f: Forest, e: Event)
    requires Roomy(f)
    ensures Roomy(F.Activated(f, e))
  {
    ActivatedKeeps(f, e);
    SameFrames(f, F.Activated(f, e));
    SlighterIsRoomy(f, F.Activated(f, e));
  }

  lemma OpenedRuns(f: Forest, h: seq<Event>, e: Event, announced: bool, maxNodes: nat)
    requires AllLinked(f, h, maxNodes) && History(h + [e]) && Collects(e)
    ensures var (g, tree) := F.Opened(f, e, announced);
      tree.Some? ==> tree.value < |g.made| && tree.value in g.live && !g.made[tree.value].complete
  {
    hide History, Collects, AllLinked;
    var (g, tree) := F.Opened(f, e, announced);
    if F.Owner(f, e.parent).Some? {
      OwnerIsRunning(f, h, e, F.Owner(f, e.parent).value, maxNodes);
    }
  }

  lemma FinishedIsRoomy(f: Forest, e: Event)
    requires F.Sound(f) && Roomy(f)
    ensures Roomy(F.Finished(f, e))
  {
    var g := F.Finished(f, e);
    FinishedFrames(f, e);
    FrameCount(f);
    FrameCount(g);
    if e.sequence in f.frames {
      hide DeadFrames, F.Finished;
      assert f.frames.Keys == g.frames.Keys + {e.sequence} && e.sequence !in g.frames.Keys;
      SpanTally.Fewer(DeadFrames(g), g.frames.Keys);
    } else {
      hide DeadFrames;
      DeactivatedFields(f, e.sequence);
      SameFrames(f, g);
      SlighterIsRoomy(f, g);
    }
  }

  lemma ReadIsRoomy(c: Config, f: Forest, h: seq<Event>, e: Event, announced: bool, found: bool)
    requires AllLinked(f, h, c.maxNodes) && History(h + [e]) && F.Sound(f) && F.Rooted(f) && Roomy(f)
    ensures Roomy(Consumed(c, f, e, announced, found))
  {
    hide History, AllLinked, F.Sound, F.Rooted, F.Started, F.Finished, F.Cleared, F.ClearedAttachment, Roomy, Slighter;
    ClearedIsSlighter(f, e.attachment);
    SlighterIsRoomy(f, F.Cleared(f));
    SlighterIsRoomy(f, F.ClearedAttachment(f, e.attachment));
    EventPhase(h, e);
    if e.kind != Gap && e.scopeToken == [] && e.sequence > 0 {
      if e.phase == Phase.Start {
        StartedIsRoomy(f, h, e, announced, found, c.maxNodes);
      } else {
        FinishedIsRoomy(f, e);
      }
    } else if e.kind != Gap && e.scopeToken != [] {
      AnnouncedIsRoomy(f, e, found, c.clock(e.timestamp), c.bounds.maxPending);
    }
  }

  lemma AnnouncedIsRoomy(f: Forest, e: Event, found: bool, anchor: Option<int>, maxPending: nat)
    requires Roomy(f)
    ensures Roomy(F.Announced(f, e, found, anchor, maxPending))
  {
    var g := F.Announced(f, e, found, anchor, maxPending);
    SameFrames(f, g);
    SlighterIsRoomy(f, g);
  }

  lemma TurnIsRoomy(c: Config, acts: seq<R.Act>, f: Forest, t: Turn, g: Forest, h: seq<Event>)
    requires TurnOk(c, acts, f, t, g) && AllLinked(f, h, c.maxNodes) && Roomy(f)
    requires t.cause.Took? ==> History(h + [t.cause.e])
    ensures Roomy(g)
  {
    hide AllLinked, History, F.Sound, F.Rooted, CauseOk, Consumed, Swept, Flushes, Roomy, Slighter, VisitOk;
    var r := Read(c, f, t.cause);
    if t.cause.Took? {
      ReadIsRoomy(c, f, h, t.cause.e, t.cause.announced.Some?, t.cause.found.Some?);
    }
    VisitsAreLive(c, acts, f, t, g);
    SweptIsSlighter(r, t.visits);
    var s := Swept(r, t.visits);
    SlighterIsRoomy(r, s);
    WithoutIsSlighter(s, s.live);
    SlighterIsRoomy(s, F.Without(s, s.live));
    if t.cause.Second? {
      SameFrames(s, g);
      SlighterIsRoomy(s, g);
    }
  }

  lemma VisitsAreLive(c: Config, acts: seq<R.Act>, f: Forest, t: Turn, g: Forest)
    requires TurnOk(c, acts, f, t, g)
    ensures OncePerTree(t.visits) && forall i :: 0 <= i < |t.visits| ==> t.visits[i].id in Read(c, f, t.cause).live
  {
    hide F.Sound, F.Rooted, CauseOk, Consumed, Swept, Flushes, VisitOk;
    forall i | 0 <= i < |t.visits| ensures t.visits[i].id in Read(c, f, t.cause).live {
      assert Visited(t.visits, t.visits[i].id);
    }
  }

  lemma {:induction false} RunIsRoomy(c: Config, acts: seq<R.Act>, r: Run, k: nat)
    requires Steps(c, acts, r) && History(EventsOf(r.turns)) && k <= |r.turns|
    ensures Roomy(r.forests[k])
  {
    hide TurnOk, AllLinked, EventsOf, History, Roomy;
    if k == 0 {
      BareIsRoomy();
    } else {
      RunIsRoomy(c, acts, r, k - 1);
      RunHistory(r.turns, k - 1);
      TurnIsRoomy(c, acts, r.forests[k - 1], r.turns[k - 1], r.forests[k], EventsOf(r.turns[..k - 1]));
    }
  }

  lemma BareIsRoomy()
    ensures Roomy(F.BARE)
  {
    assert DeadFrames(F.BARE) == {};
  }

  /** Over every run, the frames that are left behind never take the last place. */
  lemma StaleFramesAreBounded(c: Config, acts: seq<R.Act>, r: Run, k: nat)
    requires Steps(c, acts, r) && History(EventsOf(r.turns)) && k <= |r.turns|
    ensures |StaleFrames(r.forests[k])| <= F.MAX_FRAMES - 1
  {
    hide Steps, History, EventsOf, DeadFrames, StaleFrames;
    RunIsRoomy(c, acts, r, k);
    ForestsOf(c, acts, r);
    FrameCount(r.forests[k]);
    SpanTally.Fewer(StaleFrames(r.forests[k]), DeadFrames(r.forests[k]));
  }

  lemma ForestsOf(c: Config, acts: seq<R.Act>, r: Run)
    requires Steps(c, acts, r)
    ensures |r.forests| == |r.turns| + 1
  {
    hide TurnOk, AllLinked, EventsOf;
  }

  // ---- when only one place is left

  /** All places of the table but one are taken by frames that were left behind. */
  ghost predicate Crammed(f: Forest, left: set<nat>) {
    |left| >= F.MAX_FRAMES - 1 && forall n :: n in left ==> Stale(f, n)
  }

  /** From `f` to `g` no tree grows, and a new tree that is followed has its root and nothing else. */
  ghost predicate OnlyRoots(f: Forest, g: Forest) {
    && |f.made| <= |g.made|
    && forall id :: id in g.live ==>
         && id < |g.made|
         && if id < |f.made| then id in f.live && |g.made[id].nodes| == |f.made[id].nodes| else |g.made[id].nodes| == 1
  }

  /** No tree grows, and none is new. */
  ghost predicate NothingNew(f: Forest, g: Forest) {
    && |f.made| == |g.made| && g.live <= f.live && (forall id :: id in g.live ==> id < |g.made|)
    && forall id :: 0 <= id < |f.made| ==> |g.made[id].nodes| == |f.made[id].nodes|
  }

  lemma RootsThenNothing(f: Forest, g: Forest, h: Forest)
    requires OnlyRoots(f, g) && NothingNew(g, h)
    ensures OnlyRoots(f, h)
  {
  }

  lemma RootsThenRoots(f: Forest, g: Forest, h: Forest)
    requires OnlyRoots(f, g) && OnlyRoots(g, h)
    ensures OnlyRoots(f, h)
  {
  }

  lemma NoRoots(f: Forest)
    requires forall id :: id in f.live ==> id < |f.made|
    ensures OnlyRoots(f, f) && NothingNew(f, f)
  {
  }

  /** The frame of a tree that is followed takes the last place. */
  lemma LastPlace(f: Forest, left: set<nat>, n: nat)
    requires Crammed(f, left) && n in f.frames && !Stale(f, n)
    ensures |f.frames| >= F.MAX_FRAMES
  {
    assert left + {n} <= f.frames.Keys && |left + {n}| == |left| + 1;
    SpanTally.Fewer(left + {n}, f.frames.Keys);
    FrameCount(f);
  }

  lemma JoinedDrops(f: Forest, id: nat, e: Event, found: bool, maxNodes: nat)
    requires F.Sound(f) && id < |f.made| && |f.frames| >= F.MAX_FRAMES
    ensures var g := F.Joined(f, id, e, found, maxNodes); id !in g.live && NothingNew(f, g)
  {
  }

  /** A start that opens no tree leaves the trees as they are. */
  lemma OpenedOld(f: Forest, e: Event, announced: bool)
    requires F.Sound(f) && F.Opened(f, e, announced).1 != Some(|f.made|)
    ensures var (g, tree) := F.Opened(f, e, announced); g.made == f.made && g.live == f.live && g.frames == f.frames
    ensures var tree := F.Opened(f, e, announced).1;
      tree.Some? ==> tree.value < |f.made| && F.Owner(f, e.parent) == tree
  {
  }

  /** The first start under a tree that is followed makes the consumer drop the tree. */
  lemma ChildDropsTree(
      f: Forest, h: seq<Event>, e: Event, announced: bool, found: bool, maxNodes: nat, left: set<nat>, id: nat)
    requires AllLinked(f, h, maxNodes) && History(h + [e]) && Collects(e) && Crammed(f, left)
    requires F.Opened(f, e, announced).1 == Some(id) && id < |f.made|
    ensures F.Sound(f) && id !in F.Started(f, e, announced, found, maxNodes).live
    ensures OnlyRoots(f, F.Started(f, e, announced, found, maxNodes))
  {
    hide AllLinked, History, Collects, F.Joined, F.Activated, F.Opened, F.Sound, Crammed;
    SoundOf(f, h, maxNodes);
    OpenedOld(f, e, announced);
    OwnerIsRunning(f, h, e, id, maxNodes);
    OwnerIsNotStale(f, e.parent, id);
    LastPlace(f, left, e.parent);
    var g := F.Opened(f, e, announced).0;
    OpenedSound(f, e, announced);
    ActivatedKeeps(g, e);
    ActivatedSound(g, e);
    JoinedDrops(F.Activated(g, e), id, e, found, maxNodes);
    LiveAreMade(f);
  }

  lemma OwnerIsNotStale(f: Forest, n: nat, id: nat)
    requires F.Owner(f, n) == Some(id) && id in f.live
    ensures n in f.frames && !Stale(f, n)
  {
  }

  lemma OpenedSound(f: Forest, e: Event, announced: bool)
    requires F.Sound(f)
    ensures F.Sound(F.Opened(f, e, announced).0)
  {
  }

  lemma ActivatedSound(f: Forest, e: Event)
    requires F.Sound(f)
    ensures F.Sound(F.Activated(f, e))
  {
    ActivatedKeeps(f, e);
  }

  /** A root still finds its place. */
  lemma RootStillOpens(f: Forest, e: Event, maxNodes: nat)
    requires F.Sound(f) && F.TakesPending(f, e) && |f.frames| < F.MAX_FRAMES && maxNodes > 0
    ensures var g := F.Started(f, e, true, true, maxNodes);
      |f.made| in g.live && |g.made| == |f.made| + 1 && |g.made[|f.made|].nodes| == 1
  {
  }

  lemma StartedIsRoot(f: Forest, h: seq<Event>, e: Event, announced: bool, found: bool, maxNodes: nat, left: set<nat>)
    requires AllLinked(f, h, maxNodes) && History(h + [e]) && Collects(e) && Crammed(f, left) && maxNodes > 0
    ensures F.Sound(f) && OnlyRoots(f, F.Started(f, e, announced, found, maxNodes))
  {
    hide AllLinked, History, Collects, F.Joined, F.Activated, F.Opened, F.Sound, Crammed;
    SoundOf(f, h, maxNodes);
    var (g, tree) := F.Opened(f, e, announced);
    OpenedOwner(f, e, announced);
    OpenedSound(f, e, announced);
    ActivatedKeeps(g, e);
    LiveAreMade(f);
    if tree == Some(|f.made|) {
      OpenedIsEmpty(f, e, announced);
      RootJoins(f, F.Activated(g, e), e, found, maxNodes);
    } else if tree.None? {
      OpenedOld(f, e, announced);
      NoRoots(f);
    } else {
      OpenedOld(f, e, announced);
      ChildDropsTree(f, h, e, announced, found, maxNodes, left, tree.value);
    }
  }

  lemma LiveAreMade(f: Forest)
    requires F.Sound(f)
    ensures forall id :: id in f.live ==> id < |f.made|
  {
  }

  lemma OpenedIsEmpty(f: Forest, e: Event, announced: bool)
    requires F.Opened(f, e, announced).1 == Some(|f.made|)
    requires F.Sound(f)
    ensures var g := F.Opened(f, e, announced).0;
      |g.made| == |f.made| + 1 && g.made[..|f.made|] == f.made && g.made[|f.made|].nodes == []
      && g.live == f.live + {|f.made|}
  {
  }

  lemma RootJoins(f: Forest, g: Forest, e: Event, found: bool, maxNodes: nat)
    requires (forall id :: id in f.live ==> id < |f.made|) && maxNodes > 0
    requires |g.made| == |f.made| + 1 && g.made[..|f.made|] == f.made && g.made[|f.made|].nodes == []
    requires g.live == f.live + {|f.made|}
    ensures OnlyRoots(f, F.Joined(g, |f.made|, e, found, maxNodes))
  {
    var h := F.Joined(g, |f.made|, e, found, maxNodes);
    forall id | id in h.live && id < |f.made| ensures |h.made[id].nodes| == |f.made[id].nodes| {
      assert g.made[..|f.made|][id] == f.made[id];
    }
  }

  lemma FinishedAddsNothing(f: Forest, e: Event)
    requires F.Sound(f)
    ensures NothingNew(f, F.Finished(f, e))
  {
    hide F.Deactivated;
    DeactivatedFields(f, e.sequence);
  }

  lemma ClearedAddsNothing(f: Forest, attachment: nat)
    requires F.Rooted(f)
    ensures NothingNew(f, F.Cleared(f)) && NothingNew(f, F.ClearedAttachment(f, attachment))
  {
  }

  lemma ReadIsRoot(
      c: Config, f: Forest, h: seq<Event>, e: Event, announced: bool, found: bool, left: set<nat>)
    requires AllLinked(f, h, c.maxNodes) && History(h + [e]) && F.Sound(f) && F.Rooted(f) && Crammed(f, left)
    ensures OnlyRoots(f, Consumed(c, f, e, announced, found))
  {
    LiveAreMade(f);
    NoRoots(f);
    assert c.maxNodes > 0;
    hide History, AllLinked, F.Sound, F.Rooted, F.Started, F.Finished, F.Cleared, F.ClearedAttachment, Crammed;
    hide NothingNew;
    ClearedAddsNothing(f, e.attachment);
    RootsThenNothing(f, f, F.Cleared(f));
    RootsThenNothing(f, f, F.ClearedAttachment(f, e.attachment));
    EventPhase(h, e);
    if e.kind != Gap && e.scopeToken == [] && e.sequence > 0 {
      if e.phase == Phase.Start {
        StartedIsRoot(f, h, e, announced, found, c.maxNodes, left);
      } else {
        FinishedAddsNothing(f, e);
        RootsThenNothing(f, f, F.Finished(f, e));
      }
    }
  }

  lemma SweptAddsNothing(f: Forest, visits: seq<Visit>)
    requires forall id :: id in f.live ==> id < |f.made|
    ensures NothingNew(f, Swept(f, visits)) && NothingNew(f, F.Without(Swept(f, visits), Swept(f, visits).live))
  {
    SweptFields(f, visits);
    hide Swept;
  }

  lemma TurnIsRoot(
      c: Config, acts: seq<R.Act>, f: Forest, t: Turn, g: Forest, h: seq<Event>, left: set<nat>)
    requires TurnOk(c, acts, f, t, g) && AllLinked(f, h, c.maxNodes) && Crammed(f, left)
    requires t.cause.Took? ==> History(h + [t.cause.e])
    ensures OnlyRoots(f, g)
  {
    LiveAreMade(f);
    hide AllLinked, History, F.Sound, F.Rooted, CauseOk, FlushOk, Consumed, Swept, Flushes, Crammed, NothingNew;
    var r := Read(c, f, t.cause);
    NoRoots(f);
    if t.cause.Took? {
      ReadIsRoot(c, f, h, t.cause.e, t.cause.announced.Some?, t.cause.found.Some?, left);
    }
    SweptAddsNothing(r, t.visits);
    RootsThenNothing(f, r, Swept(r, t.visits));
    RootsThenNothing(f, r, F.Without(Swept(r, t.visits), Swept(r, t.visits).live));
    if t.cause.Second? {
      SecondAddsNothing(Swept(r, t.visits), t.cause.forgotten);
      RootsThenNothing(f, Swept(r, t.visits), g);
    }
  }

  lemma SecondAddsNothing(f: Forest, forgotten: set<nat>)
    requires forall id :: id in f.live ==> id < |f.made|
    ensures NothingNew(f, f.(pending := f.pending - forgotten))
  {
  }

  lemma CrammedStays(c: Config, acts: seq<R.Act>, r: Run, k: nat, l: nat, left: set<nat>)
    requires Steps(c, acts, r) && History(EventsOf(r.turns)) && k <= l <= |r.turns| && Crammed(r.forests[k], left)
    ensures Crammed(r.forests[l], left)
  {
    hide Steps, EventsOf, History;
    ForestsOf(c, acts, r);
    forall n | n in left ensures Stale(r.forests[l], n) {
      LeakIsForever(c, acts, r, k, l, n);
    }
  }

  /**
   * Once all places but one are taken by frames left behind, no tree ever grows again, and every tree followed later
   * holds its root alone.
   */
  lemma {:induction false} OnlyRootsFromThen(c: Config, acts: seq<R.Act>, r: Run, k: nat, l: nat, left: set<nat>)
    requires Steps(c, acts, r) && History(EventsOf(r.turns)) && k <= l <= |r.turns| && Crammed(r.forests[k], left)
    ensures OnlyRoots(r.forests[k], r.forests[l])
    decreases l
  {
    hide TurnOk, EventsOf, History, Crammed, AllLinked, OnlyRoots;
    if k == l {
      StepsLive(c, acts, r, k);
      NoRoots(r.forests[k]);
    } else {
      OnlyRootsFromThen(c, acts, r, k, l - 1, left);
      CrammedStays(c, acts, r, k, l - 1, left);
      RunHistory(r.turns, l - 1);
      TurnIsRoot(c, acts, r.forests[l - 1], r.turns[l - 1], r.forests[l], EventsOf(r.turns[..l - 1]), left);
      RootsThenRoots(r.forests[k], r.forests[l - 1], r.forests[l]);
    }
  }

  lemma StepsLive(c: Config, acts: seq<R.Act>, r: Run, k: nat)
    requires Steps(c, acts, r) && k <= |r.turns|
    ensures forall id :: id in r.forests[k].live ==> id < |r.forests[k].made|
  {
    hide TurnOk, EventsOf, Linked, FrameLive;
    LiveAreMade(r.forests[k]);
  }
}
