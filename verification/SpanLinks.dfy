/** The span consumer composed with the parser: what the trees hold, whatever the clients do meanwhile. */
module SpanLinks {
  import opened Options
  import opened TraceEvents
  import opened TracePairing
  import opened SpanFamily
  import R = SpanRegistry
  import F = SpanForest
  type Forest = F.Forest
  type Tree = F.Tree

  // ---- the link between a tree and the history

  ghost predicate NodeOk(h: seq<Event>, n: F.Node) {
    if n.finish.None? then !Ended(h, n.start.sequence)
    else Ends(n.finish.value) && n.finish.value.sequence == n.start.sequence && n.finish.value in h
  }

  function Min(a: nat, b: nat): nat {
    if a < b then a else b
  }

  /** The tree holds the first members of its root's family, each with its finish if that was seen. */
  ghost predicate TreeOk(t: Tree, h: seq<Event>, maxNodes: nat) {
    && t.nodes != []
    && var fam := Family(h, t.nodes[0].start.sequence);
       && t.nodes[0].start.parent == 0 && t.nodes[0].start.kind == Statement
       && |t.nodes| == Min(maxNodes, |fam|) && t.omitted == (|fam| > maxNodes)
       && (forall i :: 0 <= i < |t.nodes| ==> t.nodes[i].start == fam[i] && NodeOk(h, t.nodes[i]))
       && (t.complete <==> t.nodes[0].finish.Some?)
  }

  /** The index finds each node by its number, and nothing else. */
  ghost predicate IndexOk(t: Tree) {
    && (forall i :: 0 <= i < |t.nodes| ==>
      t.nodes[i].start.sequence in t.index && t.index[t.nodes[i].start.sequence] == i)
    && (forall s :: s in t.index ==> t.index[s] < |t.nodes| && t.nodes[t.index[s]].start.sequence == s)
  }

  /** A tree owns the frames of exactly those members of the family whose finish was not seen. */
  ghost predicate FramesOk(frames: map<nat, nat>, id: nat, fam: seq<Event>, h: seq<Event>) {
    && (forall n: nat :: Member(fam, n) && !Ended(h, n) ==> n in frames)
    && (forall n: nat :: Member(fam, n) && n in frames ==> frames[n] == id && !Ended(h, n))
    && (forall n: nat :: n in frames && frames[n] == id ==> Member(fam, n))
  }

  ghost predicate Linked(f: Forest, h: seq<Event>, id: nat, maxNodes: nat) {
    && id < |f.made| && TreeOk(f.made[id], h, maxNodes) && IndexOk(f.made[id])
    && FramesOk(f.frames, id, Family(h, f.made[id].nodes[0].start.sequence), h)
  }

  /** Only starts that were seen have frames, and a start that is still open has a tree that is followed. */
  ghost predicate FrameLive(f: Forest, h: seq<Event>, n: nat)
    requires n in f.frames
  {
    1 <= n <= |Starts(h)| && f.frames[n] < |f.made| && (Open(h, n) ==> f.frames[n] in f.live)
  }

  ghost predicate AllLinked(f: Forest, h: seq<Event>, maxNodes: nat) {
    && (forall id :: id in f.live ==> Linked(f, h, id, maxNodes))
    && (forall n :: n in f.frames ==> FrameLive(f, h, n))
    && F.Sound(f) && maxNodes > 0
  }

  lemma LinkedIsRooted(f: Forest, h: seq<Event>, maxNodes: nat)
    requires AllLinked(f, h, maxNodes)
    ensures F.Rooted(f)
  {
  }

  // ---- events that concern no tree

  lemma NeutralTree(t: Tree, h: seq<Event>, e: Event, maxNodes: nat)
    requires TreeOk(t, h, maxNodes)
    requires !Belongs(Family(h, t.nodes[0].start.sequence), t.nodes[0].start.sequence, e)
    requires Ends(e) ==> forall i :: 0 <= i < |t.nodes| ==> t.nodes[i].start.sequence != e.sequence
    ensures TreeOk(t, h + [e], maxNodes)
  {
    hide Family, Ended, Ends, Belongs;
    FamilyAppend(h, e, t.nodes[0].start.sequence);
    forall i | 0 <= i < |t.nodes| ensures NodeOk(h + [e], t.nodes[i]) {
      EndedAppend(h, e, t.nodes[i].start.sequence);
      assert NodeOk(h, t.nodes[i]);
    }
  }

  lemma NeutralFrames(frames: map<nat, nat>, id: nat, fam: seq<Event>, h: seq<Event>, e: Event)
    requires FramesOk(frames, id, fam, h) && !Ends(e)
    ensures FramesOk(frames, id, fam, h + [e])
  {
    hide Ended, Member;
    forall n: nat ensures Ended(h + [e], n) <==> Ended(h, n) {
      EndedAppend(h, e, n);
    }
  }

  lemma NeutralLink(f: Forest, h: seq<Event>, e: Event, id: nat, maxNodes: nat)
    requires Linked(f, h, id, maxNodes) && !Ends(e)
    requires !Belongs(Family(h, f.made[id].nodes[0].start.sequence), f.made[id].nodes[0].start.sequence, e)
    ensures Linked(f, h + [e], id, maxNodes)
  {
    hide Family, Ends, Belongs, FramesOk, IndexOk;
    var t := f.made[id];
    FamilyAppend(h, e, t.nodes[0].start.sequence);
    NeutralTree(t, h, e, maxNodes);
    NeutralFrames(f.frames, id, Family(h, t.nodes[0].start.sequence), h, e);
  }

  lemma FrameStays(f: Forest, h: seq<Event>, e: Event, n: nat)
    requires n in f.frames && FrameLive(f, h, n)
    ensures FrameLive(f, h + [e], n)
  {
  }

  /** An event that the consumer neither collects nor takes as the end of an execution. */
  lemma NeutralKeeps(f: Forest, h: seq<Event>, e: Event, maxNodes: nat)
    requires AllLinked(f, h, maxNodes) && !Collects(e) && !Ends(e)
    ensures AllLinked(f, h + [e], maxNodes)
  {
    hide Linked, FrameLive, F.Sound;
    forall id | id in f.live ensures Linked(f, h + [e], id, maxNodes) {
      NeutralLinkAny(f, h, e, id, maxNodes);
    }
    forall n | n in f.frames ensures FrameLive(f, h + [e], n) {
      FrameStays(f, h, e, n);
    }
  }

  lemma NeutralLinkAny(f: Forest, h: seq<Event>, e: Event, id: nat, maxNodes: nat)
    requires Linked(f, h, id, maxNodes) && !Collects(e) && !Ends(e)
    ensures Linked(f, h + [e], id, maxNodes)
  {
  }

  // ---- losing trees

  lemma LinkWithout(f: Forest, h: seq<Event>, gone: set<nat>, id: nat, maxNodes: nat)
    requires Linked(f, h, id, maxNodes) && id !in gone
    ensures Linked(F.Without(f, gone), h, id, maxNodes)
  {
    hide Family, TreeOk, IndexOk, Member, Ended;
  }

  /** Trees may be given up at any time. */
  lemma WithoutKeeps(f: Forest, h: seq<Event>, gone: set<nat>, maxNodes: nat)
    requires AllLinked(f, h, maxNodes)
    ensures AllLinked(F.Without(f, gone), h, maxNodes)
  {
    hide Linked, Open, Starts, F.Indexed;
    var g := F.Without(f, gone);
    forall id | id in g.live ensures Linked(g, h, id, maxNodes) {
      LinkWithout(f, h, gone, id, maxNodes);
    }
    forall n | n in g.frames ensures FrameLive(g, h, n) {
      assert FrameLive(f, h, n);
    }
  }

  /** What waits for a statement and what runs are no concern of the trees. */
  lemma OtherFieldsKeep(f: Forest, g: Forest, h: seq<Event>, maxNodes: nat)
    requires AllLinked(f, h, maxNodes) && g.frames == f.frames && g.made == f.made && g.live == f.live
    ensures AllLinked(g, h, maxNodes)
  {
    hide TreeOk, IndexOk, FramesOk, Family, Open, Starts, F.Indexed;
    forall id | id in g.live ensures Linked(g, h, id, maxNodes) {
      assert Linked(f, h, id, maxNodes);
    }
    forall n | n in g.frames ensures FrameLive(g, h, n) {
      assert FrameLive(f, h, n);
    }
  }

  lemma ClearedKeeps(f: Forest, h: seq<Event>, maxNodes: nat)
    requires AllLinked(f, h, maxNodes)
    ensures AllLinked(F.Cleared(f), h, maxNodes)
  {
  }

  lemma ClearedAttachmentKeeps(f: Forest, h: seq<Event>, attachment: nat, maxNodes: nat)
    requires AllLinked(f, h, maxNodes) && F.Rooted(f)
    ensures AllLinked(F.ClearedAttachment(f, attachment), h, maxNodes)
  {
    hide AllLinked, F.Rooted;
    if attachment == 0 {
      ClearedKeeps(f, h, maxNodes);
    } else {
      var gone := F.TreesOf(f, attachment);
      WithoutKeeps(f, h, gone, maxNodes);
      OtherFieldsKeep(F.Without(f, gone), F.ClearedAttachment(f, attachment), h, maxNodes);
    }
  }

  // ---- starts

  lemma NewestStart(h: seq<Event>, e: Event)
    requires History(h + [e]) && e.PairedStart()
    ensures e.sequence == |Starts(h)| + 1
    ensures e.parent != 0 ==> Open(h, e.parent)
  {
    hide Starts, Open, SameScope, FinishesMatch, FinishesOnce, AlwaysNested;
    var g := h + [e];
    assert g[|h|] == e && g[..|h|] == h;
    StartsAppend(h, e);
    assert Starts(g)[|Starts(h)|] == e;
  }

  lemma HistoryBefore(h: seq<Event>, e: Event)
    requires History(h + [e])
    ensures History(h)
  {
    hide History;
    HistoryPrefix(h + [e], |h|);
    assert (h + [e])[..|h|] == h;
  }

  lemma OpenIsNotEnded(h: seq<Event>, n: nat)
    requires Open(h, n)
    ensures !Ended(h, n)
  {
    hide Starts;
  }

  lemma NotEndedYet(h: seq<Event>, n: nat)
    requires History(h) && n > |Starts(h)|
    ensures !Ended(h, n)
  {
    hide Starts, SameExecution;
    if Ended(h, n) {
      var j :| 0 <= j < |h| && Ends(h[j]) && h[j].sequence == n;
      StartsPrefix(h, j);
    }
  }

  lemma MembersAreKnown(h: seq<Event>, root: nat)
    requires History(h)
    ensures forall n: nat :: Member(Family(h, root), n) ==> 1 <= n <= |Starts(h)|
  {
    hide Family;
    var fam := Family(h, root);
    forall n: nat | Member(fam, n) ensures 1 <= n <= |Starts(h)| {
      var i :| 0 <= i < |fam| && fam[i].sequence == n;
      MembersAreStarts(h, root, i);
    }
  }

  lemma FirstIsMember(fam: seq<Event>)
    requires fam != []
    ensures Member(fam, fam[0].sequence)
  {
  }

  /** A new start belongs to the family of a tree exactly when its parent has a frame of that tree. */
  lemma BelongsByFrame(f: Forest, h: seq<Event>, e: Event, id: nat, maxNodes: nat)
    requires Linked(f, h, id, maxNodes) && maxNodes > 0 && Collects(e) && History(h + [e])
    requires forall n :: n in f.frames ==> FrameLive(f, h, n)
    ensures var root := f.made[id].nodes[0].start.sequence;
      Belongs(Family(h, root), root, e) <==> F.Owner(f, e.parent) == Some(id)
  {
    hide Family, History, Starts, Open, NodeOk, IndexOk, Ended, Member;
    var root := f.made[id].nodes[0].start.sequence;
    HistoryBefore(h, e);
    NewestStart(h, e);
    MembersAreKnown(h, root);
    FirstIsMember(Family(h, root));
    if e.parent != 0 {
      OpenIsNotEnded(h, e.parent);
    }
  }

  /** A start that no tree takes in. */
  lemma StartElsewhere(f: Forest, h: seq<Event>, e: Event, maxNodes: nat)
    requires AllLinked(f, h, maxNodes) && Collects(e) && History(h + [e])
    requires F.Owner(f, e.parent).None? || F.Owner(f, e.parent).value !in f.live
    ensures AllLinked(f, h + [e], maxNodes)
  {
    hide Linked, FrameLive, F.Sound, F.Indexed, History, Collects, F.Owner;
    forall id | id in f.live ensures Linked(f, h + [e], id, maxNodes) {
      StartElsewhereLink(f, h, e, id, maxNodes);
    }
    forall n | n in f.frames ensures FrameLive(f, h + [e], n) {
      FrameStays(f, h, e, n);
    }
  }

  lemma StartElsewhereLink(f: Forest, h: seq<Event>, e: Event, id: nat, maxNodes: nat)
    requires Linked(f, h, id, maxNodes) && maxNodes > 0 && Collects(e) && History(h + [e])
    requires forall n :: n in f.frames ==> FrameLive(f, h, n)
    requires F.Owner(f, e.parent) != Some(id)
    ensures Linked(f, h + [e], id, maxNodes)
  {
    hide Family, IndexOk, FramesOk, FrameLive, NodeOk, History, Belongs;
    BelongsByFrame(f, h, e, id, maxNodes);
    NeutralLink(f, h, e, id, maxNodes);
  }

  /** The frame of a new start is nobody's but its tree's. */
  lemma FramesBeside(frames: map<nat, nat>, id: nat, fam: seq<Event>, h: seq<Event>, n: nat, owner: nat)
    requires FramesOk(frames, id, fam, h) && !Member(fam, n) && owner != id
    ensures FramesOk(frames[n := owner], id, fam, h)
  {
    hide Member, Ended;
  }

  lemma MemberAppend(fam: seq<Event>, e: Event, n: nat)
    ensures Member(fam + [e], n) <==> Member(fam, n) || e.sequence == n
  {
    var longer := fam + [e];
    if Member(fam, n) {
      var i :| 0 <= i < |fam| && fam[i].sequence == n;
      assert longer[i].sequence == n;
    }
    assert longer[|fam|] == e;
  }

  lemma FramesGrow(frames: map<nat, nat>, id: nat, fam: seq<Event>, h: seq<Event>, e: Event)
    requires FramesOk(frames, id, fam, h) && !Ends(e) && !Ended(h, e.sequence)
    ensures FramesOk(frames[e.sequence := id], id, fam + [e], h + [e])
  {
    hide Ended, Member;
    forall n: nat ensures Ended(h + [e], n) <==> Ended(h, n) {
      EndedAppend(h, e, n);
    }
    forall n: nat ensures Member(fam + [e], n) <==> Member(fam, n) || e.sequence == n {
      MemberAppend(fam, e, n);
    }
  }

  /** What joining does to the tree itself. */
  function Grown(t: Tree, e: Event, maxNodes: nat): Tree {
    if |t.nodes| >= maxNodes then t.(omitted := true)
    else t.(nodes := t.nodes + [F.Node(e, None)], index := t.index[e.sequence := |t.nodes|])
  }

  lemma GrownTree(t: Tree, h: seq<Event>, e: Event, maxNodes: nat)
    requires TreeOk(t, h, maxNodes) && IndexOk(t) && Collects(e) && maxNodes > 0
    requires Belongs(Family(h, t.nodes[0].start.sequence), t.nodes[0].start.sequence, e)
    requires !Ended(h, e.sequence) && forall i :: 0 <= i < |t.nodes| ==> t.nodes[i].start.sequence != e.sequence
    ensures TreeOk(Grown(t, e, maxNodes), h + [e], maxNodes) && IndexOk(Grown(t, e, maxNodes))
  {
    hide Family, Ended, Belongs;
    var g := Grown(t, e, maxNodes);
    FamilyAppend(h, e, t.nodes[0].start.sequence);
    EndedAppend(h, e, e.sequence);
    forall i | 0 <= i < |g.nodes| ensures NodeOk(h + [e], g.nodes[i]) {
      if i < |t.nodes| {
        EndedAppend(h, e, t.nodes[i].start.sequence);
        assert NodeOk(h, t.nodes[i]);
      }
    }
    forall s | s in g.index ensures g.index[s] < |g.nodes| && g.nodes[g.index[s]].start.sequence == s {
    }
  }

  /** The nodes are members of the family. */
  lemma NodesAreMembers(t: Tree, h: seq<Event>, maxNodes: nat)
    requires TreeOk(t, h, maxNodes)
    ensures forall i :: 0 <= i < |t.nodes| ==> Member(Family(h, t.nodes[0].start.sequence), t.nodes[i].start.sequence)
  {
    hide Family, NodeOk;
  }

  lemma JoinedLink(f: Forest, h: seq<Event>, e: Event, id: nat, maxNodes: nat)
    requires Linked(f, h, id, maxNodes) && maxNodes > 0 && Collects(e) && History(h + [e])
    requires forall n :: n in f.frames ==> FrameLive(f, h, n)
    requires F.Owner(f, e.parent) == Some(id)
    ensures Linked(
              f.(made := f.made[id := Grown(f.made[id], e, maxNodes)], frames := f.frames[e.sequence := id]),
              h + [e], id, maxNodes)
  {
    hide Family, FramesOk, FrameLive, NodeOk, History, Belongs, Starts, Member, Ended, Open;
    var t := f.made[id];
    var root := t.nodes[0].start.sequence;
    BelongsByFrame(f, h, e, id, maxNodes);
    HistoryBefore(h, e);
    NewestStart(h, e);
    NotEndedYet(h, e.sequence);
    NodesAreMembers(t, h, maxNodes);
    MembersAreKnown(h, root);
    hide IndexOk;
    GrownTree(t, h, e, maxNodes);
    FramesGrow(f.frames, id, Family(h, root), h, e);
    FamilyAppend(h, e, root);
  }

  /** Another tree does not notice. */
  lemma JoinedBeside(f: Forest, h: seq<Event>, e: Event, g: Forest, id: nat, other: nat, maxNodes: nat)
    requires Linked(f, h, other, maxNodes) && maxNodes > 0 && Collects(e) && History(h + [e]) && other != id
    requires forall n :: n in f.frames ==> FrameLive(f, h, n)
    requires F.Owner(f, e.parent) != Some(other)
    requires other < |g.made| && g.made[other] == f.made[other] && g.frames == f.frames[e.sequence := id]
    ensures Linked(g, h + [e], other, maxNodes)
  {
    hide Family, FramesOk, FrameLive, NodeOk, History, Belongs, Starts, Member, Ended, Open, F.Owner, IndexOk;
    var root := f.made[other].nodes[0].start.sequence;
    StartElsewhereLink(f, h, e, other, maxNodes);
    HistoryBefore(h, e);
    NewestStart(h, e);
    MembersAreKnown(h, root);
    BelongsByFrame(f, h, e, other, maxNodes);
    FamilyAppend(h, e, root);
    FramesBeside(f.frames, other, Family(h, root), h + [e], e.sequence, id);
  }

  lemma NewFrameLive(f: Forest, h: seq<Event>, e: Event, g: Forest, id: nat, n: nat)
    requires n in g.frames && Collects(e) && History(h + [e])
    requires g.frames == f.frames[e.sequence := id] && |g.made| >= |f.made| && g.live >= f.live
    requires id in g.live && id < |g.made|
    requires n in f.frames ==> FrameLive(f, h, n)
    ensures FrameLive(g, h + [e], n)
  {
    hide Starts, Open, History;
    NewestStart(h, e);
    StartsAppend(h, e);
    if n != e.sequence {
      FrameStays(f, h, e, n);
    }
  }

  /** A start joins the tree of its parent. */
  lemma JoinedKeeps(f: Forest, h: seq<Event>, e: Event, id: nat, found: bool, maxNodes: nat)
    requires AllLinked(f, h, maxNodes) && Collects(e) && History(h + [e]) && F.Owner(f, e.parent) == Some(id)
    requires id < |f.made|
    ensures AllLinked(F.Joined(f, id, e, found, maxNodes), h + [e], maxNodes)
  {
    hide History, Linked, Starts, Open, F.Indexed;
    if !found || |f.frames| >= F.MAX_FRAMES {
      WithoutKeeps(f, h, {id}, maxNodes);
      StartElsewhere(F.Without(f, {id}), h, e, maxNodes);
    } else {
      var g := f.(made := f.made[id := Grown(f.made[id], e, maxNodes)], frames := f.frames[e.sequence := id]);
      assert g == F.Joined(f, id, e, found, maxNodes);
      OwnerIsLive(f, h, e, id, maxNodes);
      forall other | other in g.live ensures Linked(g, h + [e], other, maxNodes) {
        if other == id {
          JoinedLink(f, h, e, id, maxNodes);
        } else {
          JoinedBeside(f, h, e, g, id, other, maxNodes);
        }
      }
      hide FrameLive;
      forall n | n in g.frames ensures FrameLive(g, h + [e], n) {
        NewFrameLive(f, h, e, g, id, n);
      }
      GrownIsSound(f, e, id, maxNodes);
    }
  }

  lemma OwnerIsLive(f: Forest, h: seq<Event>, e: Event, id: nat, maxNodes: nat)
    requires AllLinked(f, h, maxNodes) && Collects(e) && History(h + [e]) && F.Owner(f, e.parent) == Some(id)
    ensures id in f.live
  {
    hide History, Linked, Starts, Open, F.Sound;
    assert FrameLive(f, h, e.parent);
    NewestStart(h, e);
  }

  lemma GrownIsSound(f: Forest, e: Event, id: nat, maxNodes: nat)
    requires F.Sound(f) && id < |f.made|
    ensures F.Sound(f.(made := f.made[id := Grown(f.made[id], e, maxNodes)], frames := f.frames[e.sequence := id]))
  {
  }

  /** A tree that is not followed may be added to the heap. */
  lemma MadeGrows(f: Forest, h: seq<Event>, t: Tree, maxNodes: nat)
    requires AllLinked(f, h, maxNodes) && F.Indexed(t)
    ensures AllLinked(f.(made := f.made + [t]), h, maxNodes)
  {
    hide TreeOk, IndexOk, FramesOk, Family, Open, Starts, F.Indexed;
    var g := f.(made := f.made + [t]);
    forall id | id in g.live ensures Linked(g, h, id, maxNodes) {
      assert Linked(f, h, id, maxNodes);
    }
    forall n | n in g.frames ensures FrameLive(g, h, n) {
      assert FrameLive(f, h, n);
    }
  }

  function Seedling(p: F.Pending): Tree {
    F.Tree(p.token, p.anchor, [], map[], false, false)
  }

  lemma NewTreeOk(h: seq<Event>, e: Event, p: F.Pending, maxNodes: nat)
    requires Collects(e) && History(h + [e]) && maxNodes > 0 && e.parent == 0 && e.kind == Statement
    ensures Family(h + [e], e.sequence) == [e] && !Ended(h + [e], e.sequence)
    ensures TreeOk(Grown(Seedling(p), e, maxNodes), h + [e], maxNodes) && IndexOk(Grown(Seedling(p), e, maxNodes))
  {
    hide Starts, History, Ended;
    HistoryBefore(h, e);
    NewestStart(h, e);
    NumberedOf(h);
    NoFamilyYet(h, e.sequence);
    FamilyAppend(h, e, e.sequence);
    NotEndedYet(h, e.sequence);
    EndedAppend(h, e, e.sequence);
    assert [] + [e] == [e];
  }

  lemma NumberedOf(h: seq<Event>)
    requires History(h)
    ensures Numbered(h)
  {
  }

  /** The announced statement opens a tree of its own. */
  lemma NewTreeKeeps(f: Forest, h: seq<Event>, e: Event, p: F.Pending, found: bool, maxNodes: nat)
    requires AllLinked(f, h, maxNodes) && Collects(e) && History(h + [e]) && e.parent == 0 && e.kind == Statement
    ensures var sown := f.(made := f.made + [Seedling(p)], live := f.live + {|f.made|});
      AllLinked(F.Joined(sown, |f.made|, e, found, maxNodes), h + [e], maxNodes)
  {
    hide History, Linked, Starts, Open, F.Indexed, Family;
    var sown := f.(made := f.made + [Seedling(p)], live := f.live + {|f.made|});
    NoRootFrame(f, h, maxNodes);
    if !found || |f.frames| >= F.MAX_FRAMES {
      SeedlingIndexed(p);
      MadeGrows(f, h, Seedling(p), maxNodes);
      assert F.Without(sown, {|f.made|}) == f.(made := f.made + [Seedling(p)]) by {
        assert F.FramesWithout(f.frames, {|f.made|}) == f.frames;
        assert sown.live - {|f.made|} == f.live;
      }
      StartElsewhere(f.(made := f.made + [Seedling(p)]), h, e, maxNodes);
    } else {
      var g := sown.(made := f.made + [Grown(Seedling(p), e, maxNodes)], frames := f.frames[e.sequence := |f.made|]);
      assert g == F.Joined(sown, |f.made|, e, found, maxNodes);
      forall other | other in g.live ensures Linked(g, h + [e], other, maxNodes) {
        if other == |f.made| {
          NewTreeLinked(f, h, e, p, g, maxNodes);
        } else {
          JoinedBeside(f, h, e, g, |f.made|, other, maxNodes);
        }
      }
      hide FrameLive;
      forall n | n in g.frames ensures FrameLive(g, h + [e], n) {
        NewFrameLive(f, h, e, g, |f.made|, n);
      }
      NewTreeIsSound(f, e, p, g, maxNodes);
    }
  }

  lemma SeedlingIndexed(p: F.Pending)
    ensures F.Indexed(Seedling(p))
  {
  }

  lemma NoRootFrame(f: Forest, h: seq<Event>, maxNodes: nat)
    requires AllLinked(f, h, maxNodes)
    ensures F.Owner(f, 0).None?
    ensures forall n :: n in f.frames ==> f.frames[n] < |f.made|
  {
    hide Linked, Starts, Open;
  }

  lemma NewTreeIsSound(f: Forest, e: Event, p: F.Pending, g: Forest, maxNodes: nat)
    requires F.Sound(f) && maxNodes > 0
    requires g == f.(live := f.live + {|f.made|}, made := f.made + [Grown(Seedling(p), e, maxNodes)],
                     frames := f.frames[e.sequence := |f.made|])
    ensures F.Sound(g)
  {
  }

  lemma NewTreeLinked(f: Forest, h: seq<Event>, e: Event, p: F.Pending, g: Forest, maxNodes: nat)
    requires Collects(e) && History(h + [e]) && e.parent == 0 && e.kind == Statement && maxNodes > 0
    requires forall n :: n in f.frames ==> f.frames[n] < |f.made|
    requires g.made == f.made + [Grown(Seedling(p), e, maxNodes)] && g.frames == f.frames[e.sequence := |f.made|]
    ensures Linked(g, h + [e], |f.made|, maxNodes)
  {
    hide History, Family, Ended, Collects, TreeOk, IndexOk;
    NewTreeOk(h, e, p, maxNodes);
    assert Grown(Seedling(p), e, maxNodes).nodes == [F.Node(e, None)];
    forall n: nat ensures Member([e], n) <==> n == e.sequence {
      assert [e][0] == e;
    }
  }

  /** A start, whatever its lookups answer. */
  lemma StartedKeeps(f: Forest, h: seq<Event>, e: Event, announced: bool, found: bool, maxNodes: nat)
    requires AllLinked(f, h, maxNodes) && Collects(e) && History(h + [e])
    ensures AllLinked(F.Started(f, e, announced, found, maxNodes), h + [e], maxNodes)
  {
    hide AllLinked, History, Collects, F.Joined;
    SoundOf(f, h, maxNodes);
    var (g, tree) := F.Opened(f, e, announced);
    var active := F.Activated(g, e);
    if F.TakesPending(f, e) && announced {
      var p := f.pending[e.attachment];
      var calm := F.Activated(f.(pending := f.pending - {e.attachment}), e);
      OtherFieldsKeep(f, calm, h, maxNodes);
      NewTreeKeeps(calm, h, e, p, found, maxNodes);
    } else {
      OtherFieldsKeep(f, active, h, maxNodes);
      if tree.None? {
        StartElsewhere(active, h, e, maxNodes);
      } else {
        JoinedKeeps(active, h, e, tree.value, found, maxNodes);
      }
    }
  }

  lemma SoundOf(f: Forest, h: seq<Event>, maxNodes: nat)
    requires AllLinked(f, h, maxNodes)
    ensures F.Sound(f)
  {
    hide Linked, FrameLive;
  }

  // ---- finishes

  /** A finish closes a start that was open, so that nobody had seen it finish. */
  lemma FinishedIsNew(h: seq<Event>, e: Event)
    requires History(h + [e]) && Ends(e)
    ensures Open(h, e.sequence) && !Ended(h, e.sequence)
  {
    hide Starts, SameExecution, AlwaysNested, ParentsOpen, Phased;
    var g := h + [e];
    assert g[|h|] == e && g[..|h|] == h;
    forall j | 0 <= j < |h| && h[j].PairedFinish() ensures h[j].sequence != e.sequence {
      assert g[j] == h[j];
    }
  }

  lemma EndedTree(t: Tree, h: seq<Event>, e: Event, maxNodes: nat)
    requires TreeOk(t, h, maxNodes) && IndexOk(t) && Ends(e) && !Ended(h, e.sequence) && e.sequence in t.index
    ensures var i := t.index[e.sequence];
      var u := t.(nodes := t.nodes[i := t.nodes[i].(finish := Some(e))], complete := t.complete || i == 0);
      TreeOk(u, h + [e], maxNodes) && IndexOk(u)
  {
    hide Family, Ended, Ends;
    var i := t.index[e.sequence];
    var u := t.(nodes := t.nodes[i := t.nodes[i].(finish := Some(e))], complete := t.complete || i == 0);
    FamilyAppend(h, e, t.nodes[0].start.sequence);
    FinishIsNoMember(Family(h, t.nodes[0].start.sequence), t.nodes[0].start.sequence, e);
    forall k | 0 <= k < |u.nodes| ensures NodeOk(h + [e], u.nodes[k]) {
      EndedAppend(h, e, u.nodes[k].start.sequence);
      assert NodeOk(h, t.nodes[k]);
      assert (h + [e])[|h|] == e;
    }
  }

  lemma FinishIsNoMember(fam: seq<Event>, root: nat, e: Event)
    requires Ends(e)
    ensures !Belongs(fam, root, e)
  {
  }

  lemma FramesEnd(frames: map<nat, nat>, id: nat, fam: seq<Event>, h: seq<Event>, e: Event)
    requires FramesOk(frames, id, fam, h) && Ends(e)
    ensures FramesOk(frames - {e.sequence}, id, fam, h + [e])
  {
    hide Ended, Member, Ends;
    forall n: nat ensures Ended(h + [e], n) <==> Ended(h, n) || e.sequence == n {
      EndedAppend(h, e, n);
    }
  }

  /** The tree `id` after the finish, whether it was its own or not. */
  lemma EndedLink(f: Forest, h: seq<Event>, e: Event, g: Forest, id: nat, maxNodes: nat)
    requires Linked(f, h, id, maxNodes) && Ends(e) && !Ended(h, e.sequence)
    requires g.frames == f.frames - {e.sequence} && id < |g.made|
    requires var t := f.made[id];
      if e.sequence in f.frames && f.frames[e.sequence] == id && e.sequence in t.index then
        var i := t.index[e.sequence];
        i < |t.nodes|
        && g.made[id] == t.(nodes := t.nodes[i := t.nodes[i].(finish := Some(e))], complete := t.complete || i == 0)
      else g.made[id] == t
    ensures Linked(g, h + [e], id, maxNodes)
  {
    hide Family, FramesOk, NodeOk, Ended, Ends, Belongs;
    var t := f.made[id];
    var root := t.nodes[0].start.sequence;
    FamilyAppend(h, e, root);
    FinishIsNoMember(Family(h, root), root, e);
    FramesEnd(f.frames, id, Family(h, root), h, e);
    if e.sequence in f.frames && f.frames[e.sequence] == id && e.sequence in t.index {
      EndedTree(t, h, e, maxNodes);
    } else {
      OthersAreNoNodes(f, h, e, id, maxNodes);
      NeutralTree(t, h, e, maxNodes);
    }
  }

  lemma OthersAreNoNodes(f: Forest, h: seq<Event>, e: Event, id: nat, maxNodes: nat)
    requires Linked(f, h, id, maxNodes) && !Ended(h, e.sequence)
    requires !(e.sequence in f.frames && f.frames[e.sequence] == id && e.sequence in f.made[id].index)
    ensures forall i :: 0 <= i < |f.made[id].nodes| ==> f.made[id].nodes[i].start.sequence != e.sequence
  {
  }

  lemma EndedFrameLive(f: Forest, h: seq<Event>, e: Event, g: Forest, n: nat)
    requires n in f.frames && n in g.frames && g.frames[n] == f.frames[n] && |g.made| == |f.made| && g.live == f.live
    requires FrameLive(f, h, n)
    ensures FrameLive(g, h + [e], n)
  {
  }

  /** A finish that the consumer sees. */
  lemma FinishedKeeps(f: Forest, h: seq<Event>, e: Event, maxNodes: nat)
    requires AllLinked(f, h, maxNodes) && Ends(e) && History(h + [e])
    ensures AllLinked(F.Finished(f, e), h + [e], maxNodes)
  {
    hide AllLinked, History, Ends, F.Indexed, Ended, Open;
    SoundOf(f, h, maxNodes);
    FinishedIsNew(h, e);
    var g := F.Deactivated(f, e.sequence);
    OtherFieldsKeep(f, g, h, maxNodes);
    var after := F.Finished(f, e);
    assert after.frames == g.frames - {e.sequence};
    SoundOf(g, h, maxNodes);
    hide F.Finished, F.Deactivated;
    EndedAll(g, h, e, after, maxNodes) by {
      FinishedShape(f, e, g, after);
    }
  }

  ghost predicate EndsIn(g: Forest, e: Event, after: Forest) {
    && after.frames == g.frames - {e.sequence} && |after.made| == |g.made| && after.live == g.live && F.Sound(after)
    && forall id :: 0 <= id < |g.made| ==> EndsInTree(g, e, after, id)
  }

  ghost predicate EndsInTree(g: Forest, e: Event, after: Forest, id: nat)
    requires id < |g.made| && id < |after.made|
  {
    var t := g.made[id];
    if e.sequence in g.frames && g.frames[e.sequence] == id && e.sequence in t.index then
      var i := t.index[e.sequence];
      i < |t.nodes|
      && after.made[id] == t.(nodes := t.nodes[i := t.nodes[i].(finish := Some(e))], complete := t.complete || i == 0)
    else after.made[id] == t
  }

  lemma DeactivatedFields(f: Forest, n: nat)
    ensures var g := F.Deactivated(f, n); g.frames == f.frames && g.made == f.made && g.live == f.live
  {
  }

  lemma FinishedShape(f: Forest, e: Event, g: Forest, after: Forest)
    requires F.Sound(f) && g == F.Deactivated(f, e.sequence) && after == F.Finished(f, e)
    ensures EndsIn(g, e, after)
  {
    hide F.Deactivated;
    assert after.frames == g.frames - {e.sequence};
    DeactivatedFields(f, e.sequence);
    if e.sequence in g.frames {
      assert F.Indexed(g.made[g.frames[e.sequence]]);
    }
  }

  lemma EndedAll(g: Forest, h: seq<Event>, e: Event, after: Forest, maxNodes: nat)
    requires AllLinked(g, h, maxNodes) && Ends(e) && !Ended(h, e.sequence) && EndsIn(g, e, after)
    ensures AllLinked(after, h + [e], maxNodes)
  {
    hide Linked, FrameLive, Ends, Ended, F.Indexed, F.Sound;
    forall id | id in after.live ensures Linked(after, h + [e], id, maxNodes) {
      LinkedIsMade(g, h, id, maxNodes);
      assert EndsInTree(g, e, after, id);
      EndedLink(g, h, e, after, id, maxNodes);
    }
    forall n | n in after.frames ensures FrameLive(after, h + [e], n) {
      EndedFrameLive(g, h, e, after, n);
    }
  }

  lemma LinkedIsMade(f: Forest, h: seq<Event>, id: nat, maxNodes: nat)
    requires Linked(f, h, id, maxNodes)
    ensures id < |f.made|
  {
  }

  // ---- exports

  lemma RootHasFinished(t: Tree, h: seq<Event>, maxNodes: nat)
    requires TreeOk(t, h, maxNodes) && t.complete
    ensures !Open(h, t.nodes[0].start.sequence)
  {
  }

  lemma FamilyHasFinished(t: Tree, h: seq<Event>, maxNodes: nat)
    requires TreeOk(t, h, maxNodes) && t.complete && History(h)
    ensures forall n: nat :: Member(Family(h, t.nodes[0].start.sequence), n) ==> !Open(h, n)
  {
    hide Family, History, NodeOk, Open;
    var root := t.nodes[0].start.sequence;
    var fam := Family(h, root);
    RootHasFinished(t, h, maxNodes);
    MembersAreKnown(h, root);
    FirstIsMember(fam);
    forall n: nat | Member(fam, n) ensures !Open(h, n) {
      var i :| 0 <= i < |fam| && fam[i].sequence == n;
      FamilyEndsBeforeRoot(h, root, i);
    }
  }

  lemma ExportedLink(f: Forest, h: seq<Event>, id: nat, other: nat, maxNodes: nat)
    requires Linked(f, h, id, maxNodes) && Linked(f, h, other, maxNodes) && other != id
    ensures Linked(f.(frames := f.frames - f.made[id].index.Keys, live := f.live - {id}), h, other, maxNodes)
  {
  }

  /** A tree that leaves complete takes its frames along; those that stay belong to starts that are over. */
  lemma FlushedKeeps(f: Forest, h: seq<Event>, id: nat, answer: Option<R.Scope>, maxNodes: nat)
    requires AllLinked(f, h, maxNodes) && History(h) && id in f.live && id < |f.made|
    ensures AllLinked(F.Flushed(f, id, answer), h, maxNodes)
  {
    hide Linked, History, Open, Starts, F.Indexed;
    if answer.None? {
      WithoutKeeps(f, h, {id}, maxNodes);
    } else if F.Exports(f, id, answer) {
      var g := F.Flushed(f, id, answer);
      forall other | other in g.live ensures Linked(g, h, other, maxNodes) {
        ExportedLink(f, h, id, other, maxNodes);
      }
      forall n | n in g.frames ensures FrameLive(g, h, n) {
        assert FrameLive(f, h, n);
        if f.frames[n] == id {
          LeftFrameIsOver(f, h, id, n, maxNodes);
        }
      }
    }
  }

  lemma LeftFrameIsOver(f: Forest, h: seq<Event>, id: nat, n: nat, maxNodes: nat)
    requires Linked(f, h, id, maxNodes) && History(h) && f.made[id].complete && n in f.frames && f.frames[n] == id
    ensures !Open(h, n)
  {
    hide TreeOk, IndexOk, Family, History, Open, Ended, Member;
    FamilyHasFinished(f.made[id], h, maxNodes);
  }
}
