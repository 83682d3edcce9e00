/**
 * Runs in which a marked finish leaves a node incomplete or a frame behind, from the first record a fresh parser reads
 * (trace/spans.go, consume).
 */
module SpanLeakExample {
  import opened Options
  import opened Utf8
  import opened TraceEvents
  import opened TracePairing
  import opened SpanFamily
  import opened SpanLinks
  import opened SpanMachine
  import opened SpanPlay
  import opened SpanWitness
  import F = SpanForest
  import Leaks = SpanLeaks
  import R = SpanRegistry

  // ---- the trees

  /** Only the attachments up to `a` have been in use. */
  ghost predicate UpTo(f: Forest, a: nat) {
    (forall x :: x in f.counts ==> x <= a) && (forall n :: n in f.active ==> f.active[n] <= a)
  }

  /** Nothing is followed or announced. */
  ghost predicate Quiet(f: Forest, a: nat) {
    f.live == {} && f.pending == map[] && UpTo(f, a)
  }

  /** The newest tree has `n` nodes, numbered from its root on, and its root runs. */
  ghost predicate TreeRuns(made: seq<Tree>, before: seq<Tree>, root: nat, token: Bytes, n: nat) {
    && |made| == |before| + 1 && made[..|before|] == before
    && var t := made[|before|];
       && t.token == token && |t.nodes| == n > 0 && !t.complete
       && (forall s :: s in t.index <==> root <= s < root + n)
       && (forall s :: s in t.index ==> t.index[s] == s - root)
  }

  /** The statement of attachment `a` runs, and these are the frames. */
  ghost predicate Serving(
      f: Forest, before: seq<Tree>, a: nat, root: nat, token: Bytes, n: nat, frames: map<nat, nat>)
  {
    && f.live == {|before|} && f.pending == map[] && f.frames == frames && TreeRuns(f.made, before, root, token, n)
    && UpTo(f, a)
  }

  lemma ServingMade(f: Forest, before: seq<Tree>, a: nat, root: nat, token: Bytes, n: nat, frames: map<nat, nat>)
    requires Serving(f, before, a, root, token, n, frames)
    ensures f.live == {|before|} && f.pending == map[] && f.frames == frames
    ensures |before| < |f.made| && f.made[|before|].token == token
  {
  }

  lemma RootOpens(f: Forest, g: Forest, a: nat, root: nat, token: Bytes, anchor: int, maxNodes: nat)
    requires f.live == {} && f.pending == map[a := F.Pending(token, anchor)] && a > 0 && UpTo(f, a - 1)
    requires |f.frames| < F.MAX_FRAMES && maxNodes > 0 && F.Sound(f)
    requires g == F.Started(f, Outer(a, Phase.Start).(sequence := root), true, true, maxNodes)
    ensures Serving(g, f.made, a, root, token, 1, f.frames[root := |f.made|])
  {
    hide STAMP, CALL, QUERY, QUERY_TEXT, F.Sound, F.Opened, F.Joined, F.Activated, UpTo, Serving;
    var e := Outer(a, Phase.Start).(sequence := root);
    OpensEmptyTree(f, e, a, token, anchor);
    var h := F.Opened(f, e, true).0;
    ActivatedUpTo(h, e, a);
    RootJoins(F.Activated(h, e), g, e, f.made, a, token, anchor, f.frames, maxNodes);
  }

  lemma OpensEmptyTree(f: Forest, e: Event, a: nat, token: Bytes, anchor: int)
    requires f.live == {} && f.pending == map[a := F.Pending(token, anchor)] && a > 0 && UpTo(f, a - 1)
    requires e.attachment == a && e.kind == Statement && e.parent == 0
    ensures var (g, tree) := F.Opened(f, e, true);
      && tree == Some(|f.made|) && g.made == f.made + [F.Tree(token, anchor, [], map[], false, false)]
      && g.pending == map[] && g.live == {|f.made|} && g.frames == f.frames && UpTo(g, a)
  {
    assert F.TakesPending(f, e);
    assert f.pending - {a} == map[];
  }

  lemma RootJoins(f: Forest, g: Forest, e: Event, before: seq<Tree>, a: nat, token: Bytes, anchor: int,
                  frames: map<nat, nat>, maxNodes: nat)
    requires f.made == before + [F.Tree(token, anchor, [], map[], false, false)] && f.frames == frames
    requires f.live == {|before|} && f.pending == map[] && UpTo(f, a) && |frames| < F.MAX_FRAMES && maxNodes > 0
    requires g == F.Joined(f, |before|, e, true, maxNodes)
    ensures Serving(g, before, a, e.sequence, token, 1, frames[e.sequence := |before|])
  {
    UpToFields(f, g, a) by { hide UpTo; }
    hide UpTo;
    assert g.made[|before|].index == map[e.sequence := 0];
  }

  lemma ActivatedUpTo(f: Forest, e: Event, a: nat)
    requires UpTo(f, a) && e.attachment <= a
    ensures var g := F.Activated(f, e);
      UpTo(g, a) && g.made == f.made && g.frames == f.frames && g.live == f.live && g.pending == f.pending
  {
  }

  lemma UpToFields(f: Forest, g: Forest, a: nat)
    requires UpTo(f, a) && g.counts == f.counts && g.active == f.active
    ensures UpTo(g, a)
  {
  }

  lemma InnerOpens(f: Forest, g: Forest, before: seq<Tree>, a: nat, root: nat, token: Bytes, n: nat,
                   frames: map<nat, nat>, s: nat, maxNodes: nat)
    requires Serving(f, before, a, root, token, n, frames) && F.Sound(f) && a > 0
    requires root in frames && frames[root] == |before| && |frames| < F.MAX_FRAMES && (n < maxNodes ==> s == root + n)
    requires g == F.Started(f, Inner(a, Phase.Start, []).(sequence := s, parent := root), false, true, maxNodes)
    ensures Serving(g, before, a, root, token, if n < maxNodes then n + 1 else n, frames[s := |before|])
    ensures n < maxNodes ==> g.made[|before|].nodes[n].finish == None
  {
    hide STAMP, CALL, QUERY, QUERY_TEXT;
    var e := Inner(a, Phase.Start, []).(sequence := s, parent := root);
    assert !F.TakesPending(f, e);
    var k := F.Activated(f, e);
    assert k.made == f.made && k.frames == f.frames && k.live == f.live && k.pending == f.pending;
    assert g == F.Joined(k, |before|, e, true, maxNodes);
  }

  lemma DeactivatedUpTo(f: Forest, s: nat, a: nat)
    requires UpTo(f, a)
    ensures var g := F.Deactivated(f, s);
      UpTo(g, a) && g.made == f.made && g.frames == f.frames && g.live == f.live && g.pending == f.pending
  {
  }

  lemma InnerCloses(f: Forest, g: Forest, before: seq<Tree>, a: nat, root: nat, token: Bytes, n: nat,
                    frames: map<nat, nat>, s: nat)
    requires Serving(f, before, a, root, token, n, frames[s := |before|]) && F.Sound(f) && s > root && s !in frames
    requires g == F.Finished(f, Inner(a, Finish, []).(sequence := s, parent := root))
    ensures !F.Completes(f, Inner(a, Finish, []).(sequence := s, parent := root))
    ensures Serving(g, before, a, root, token, n, frames)
  {
    hide STAMP, CALL, QUERY, QUERY_TEXT, F.Deactivated, UpTo;
    DeactivatedUpTo(f, s, a);
    assert frames[s := |before|] - {s} == frames;
    UpToFields(F.Deactivated(f, s), g, a);
  }

  /** The root ends and the tree goes: of its frames those stay that are not in its index. */
  lemma OuterCloses(f: Forest, r: Forest, before: seq<Tree>, a: nat, root: nat, token: Bytes, n: nat,
                    frames: map<nat, nat>)
    requires Serving(f, before, a, root, token, n, frames) && F.Sound(f) && root in frames && frames[root] == |before|
    requires r == F.Finished(f, Outer(a, Finish).(sequence := root))
    ensures F.Completes(f, Outer(a, Finish).(sequence := root)) && |before| < |r.made|
    ensures var g, t := F.Flushed(r, |before|, Some(SCOPE)), r.made[|before|];
      && Quiet(g, a) && g.frames == frames - f.made[|before|].index.Keys
      && t.complete && |t.nodes| == n && (forall i :: 0 < i < n ==> t.nodes[i] == f.made[|before|].nodes[i])
  {
    hide STAMP, CALL, QUERY, QUERY_TEXT, F.Deactivated, UpTo;
    DeactivatedUpTo(f, root, a);
    UpToFields(F.Deactivated(f, root), r, a);
    var t := f.made[|before|];
    assert r.made[|before|].index == t.index;
    UpToFields(r, F.Flushed(r, |before|, Some(SCOPE)), a);
  }

  // ---- one statement after the other, each with its own attachment

  lemma StageElsewhere(
      c: Config, p: Play, f: Forest, a: nat, b: nat, s: nat, scopes: map<R.Token, R.Scope>, j: nat)
    requires Stage(c, p, f, a, [], s, scopes, j)
    ensures Stage(c, p, f, b, [], s, scopes, j)
  {
    hide Playing, Registered, Drawn;
  }

  /** No frame has a number that is not given yet. */
  lemma FramesAreOld(
      c: Config, p: Play, f: Forest, a: nat, stack: seq<Frame>, s: nat, scopes: map<R.Token, R.Scope>, j: nat)
    requires Stage(c, p, f, a, stack, s, scopes, j)
    ensures forall n :: n in f.frames ==> n <= s
  {
    hide Steps, Emission, R.FreshTokens, Registered, Drawn, Nested, Linked, F.Sound, EventsOf, Starts, Open;
    var h := EventsOf(p.run.turns);
    NowIsFine(c, p);
    assert p.paired.sequence == |Starts(h)|;
    forall n | n in f.frames ensures n <= s {
      assert FrameLive(f, h, n);
    }
  }

  /** A marker query announces the next statement of attachment `j + 1`. */
  lemma Announces(c: Config, p: Play, f: Forest, j: nat, s: nat) returns (q: Play, g: Forest, anchor: int)
    requires Able(c) && j < 4096 && Stage(c, p, f, 0, [], s, map[], j) && f.pending == map[]
    ensures g == f.(pending := map[j + 1 := F.Pending(TokenOf(j), anchor)])
    ensures Stage(c, q, g, j + 1, [], s + 1, map[TokenOf(j) := SCOPE], j + 1)
  {
    hide *;
    var a, token, scopes := j + 1, TokenOf(j), map[TokenOf(j) := SCOPE];
    StageElsewhere(c, p, f, 0, a, s, map[], j);
    TokensAreTokens(j);
    q := ClientAnnounces(c, p, f, a, s, j);
    q := MarkerRuns(c, q, f, a, s, token, j + 1);
    g := F.Announced(f, Marker(a, Finish, token), true, c.clock(STAMP), c.bounds.maxPending);
    anchor := AnnouncedOnce(c, f, a, token);
  }

  /** The marker query: its start and its end. */
  lemma MarkerRuns(c: Config, p: Play, f: Forest, a: nat, s: nat, token: Bytes, j: nat) returns (q: Play)
    requires Able(c) && Stage(c, p, f, a, [], s, map[token := SCOPE], j) && a > 0 && token != []
    ensures Stage(
              c, q, F.Announced(f, Marker(a, Finish, token), true, c.clock(STAMP), c.bounds.maxPending), a, [], s + 1,
              map[token := SCOPE], j)
  {
    hide Able, Stage, QUERY, QUERY_TEXT, STAMP, F.Announced;
    var start, finish, scopes := Marker(a, Phase.Start, token), Marker(a, Finish, token), map[token := SCOPE];
    q := MarkerBegins(c, p, f, a, s, scopes, j, token);
    assert [FrameAt(start, s + 1)] == [] + [FrameAt(finish, s + 1)];
    q := MarkedEnds(c, q, f, a, [], s + 1, s + 1, finish, scopes, j);
  }

  lemma AnnouncedOnce(c: Config, f: Forest, a: nat, token: Bytes) returns (anchor: int)
    requires Able(c) && f.pending == map[] && a > 0
    ensures F.Announced(f, Marker(a, Finish, token), true, c.clock(STAMP), c.bounds.maxPending)
      == f.(pending := map[a := F.Pending(token, anchor)])
  {
    hide QUERY, QUERY_TEXT, STAMP;
    anchor := c.clock(STAMP).value;
    assert f.pending - {a} == map[];
    assert map[][a := F.Pending(token, anchor)] == map[a := F.Pending(token, anchor)];
  }

  function OuterFrame(a: nat, root: nat): Frame {
    FrameAt(Outer(a, Finish), root)
  }

  /** Where the play is while the statement of attachment `a`, which has number `root`, runs. */
  ghost predicate Underway(
      c: Config, p: Play, f: Forest, before: seq<Tree>, a: nat, stack: seq<Frame>, root: nat, k: nat, token: Bytes,
      j: nat, frames: map<nat, nat>)
  {
    && Stage(c, p, f, a, [OuterFrame(a, root)] + stack, root + k, map[token := SCOPE], j)
    && Serving(f, before, a, root, token, Min(c.maxNodes, k + 1), frames)
  }

  lemma StageSound(
      c: Config, p: Play, f: Forest, a: nat, stack: seq<Frame>, s: nat, scopes: map<R.Token, R.Scope>, j: nat)
    requires Stage(c, p, f, a, stack, s, scopes, j)
    ensures F.Sound(f)
  {
    hide Stage, F.Sound;
    StageIsFine(c, p, f, a, stack, s, scopes, j);
  }

  /** Node `k`, the last of the newest tree, has no finish. */
  ghost predicate NewestRuns(made: seq<Tree>, before: seq<Tree>, k: nat) {
    |made| > |before| && |made[|before|].nodes| == k + 1 && made[|before|].nodes[k].finish == None
  }

  /** A statement begins under the root. */
  lemma InnerBegins(
      c: Config, p: Play, f: Forest, before: seq<Tree>, a: nat, root: nat, k: nat, token: Bytes, j: nat,
      frames: map<nat, nat>) returns (q: Play, g: Forest)
    requires Able(c) && Underway(c, p, f, before, a, [], root, k, token, j, frames) && a > 0
    requires root in frames && frames[root] == |before| && |frames| < F.MAX_FRAMES
    ensures Underway(
              c, q, g, before, a, [FrameAt(Inner(a, Finish, []), root + k + 1)], root, k + 1, token, j,
              frames[root + k + 1 := |before|])
    ensures k + 1 < c.maxNodes ==> NewestRuns(g.made, before, k + 1)
  {
    hide Able, Stage, Serving, STAMP, QUERY, QUERY_TEXT, CALL, F.Started, F.Sound, Stacked;
    var r, stack := Inner(a, Phase.Start, []), [OuterFrame(a, root)];
    assert stack + [] == stack;
    ServingMade(f, before, a, root, token, Min(c.maxNodes, k + 1), frames);
    q, g := ChildBegins(c, p, f, a, stack, root + k, j, token, r, |before|);
    StageSound(c, p, f, a, stack, root + k, map[token := SCOPE], j);
    InnerOpens(f, g, before, a, root, token, Min(c.maxNodes, k + 1), frames, root + k + 1, c.maxNodes);
    assert FrameAt(r, root + k + 1) == FrameAt(Inner(a, Finish, []), root + k + 1);
    if k + 1 < c.maxNodes {
      ServingNodes(g, before, a, root, token, k + 2, frames[root + k + 1 := |before|]);
    }
  }

  lemma ServingNodes(f: Forest, before: seq<Tree>, a: nat, root: nat, token: Bytes, n: nat, frames: map<nat, nat>)
    requires Serving(f, before, a, root, token, n, frames)
    ensures |before| < |f.made| && |f.made[|before|].nodes| == n
  {
  }

  /** It ends as it should. */
  lemma InnerEnds(
      c: Config, p: Play, f: Forest, before: seq<Tree>, a: nat, root: nat, k: nat, token: Bytes, j: nat,
      frames: map<nat, nat>) returns (q: Play, g: Forest)
    requires a > 0 && k > 0 && root + k !in frames
    requires Underway(
               c, p, f, before, a, [FrameAt(Inner(a, Finish, []), root + k)], root, k, token, j,
               frames[root + k := |before|])
    ensures Underway(c, q, g, before, a, [], root, k, token, j, frames)
  {
    hide Stage, Serving, STAMP, QUERY, QUERY_TEXT, CALL, F.Finished, F.Completes, F.Sound, Stacked;
    var r, stack, scopes := Inner(a, Finish, []), [OuterFrame(a, root)], map[token := SCOPE];
    assert stack + [] == stack;
    StageSound(c, p, f, a, stack + [FrameAt(r, root + k)], root + k, scopes, j);
    InnerCloses(
      f, F.Finished(f, r.(sequence := root + k, parent := root)), before, a, root, token, Min(c.maxNodes, k + 1),
      frames, root + k);
    q, g := ChildEnds(c, p, f, a, stack, root + k, root + k, scopes, j, r);
  }

  /** Statements run under the root, one after the other. */
  lemma {:induction false} Inners(
      c: Config, p: Play, f: Forest, before: seq<Tree>, a: nat, root: nat, k: nat, token: Bytes, j: nat,
      frames: map<nat, nat>) returns (q: Play, g: Forest)
    requires Able(c) && Underway(c, p, f, before, a, [], root, 0, token, j, frames) && a > 0
    requires root in frames && frames[root] == |before| && |frames| < F.MAX_FRAMES
    requires forall n :: n in frames ==> n <= root
    ensures Underway(c, q, g, before, a, [], root, k, token, j, frames)
  {
    hide Able, Underway;
    if k == 0 {
      q, g := p, f;
    } else {
      q, g := Inners(c, p, f, before, a, root, k - 1, token, j, frames);
      q, g := InnerBegins(c, q, g, before, a, root, k - 1, token, j, frames);
      q, g := InnerEnds(c, q, g, before, a, root, k, token, j, frames);
    }
  }

  /** The announced statement begins. */
  lemma OuterBegins(c: Config, p: Play, f: Forest, a: nat, s: nat, token: Bytes, anchor: int, j: nat)
    returns (q: Play, g: Forest)
    requires Able(c) && Stage(c, p, f, a, [], s, map[token := SCOPE], j) && a > 0 && UpTo(f, a - 1)
    requires f.live == {} && f.pending == map[a := F.Pending(token, anchor)] && |f.frames| < F.MAX_FRAMES
    ensures Underway(c, q, g, f.made, a, [], s + 1, 0, token, j, f.frames[s + 1 := |f.made|])
  {
    hide Able, Stage, Serving, Outer, F.Started, F.Sound, F.Count, UpTo, Underway;
    NotCounted(f, a);
    AbleRoom(c);
    StageSound(c, p, f, a, [], s, map[token := SCOPE], j);
    q, g := RootBegins(c, p, f, a, s, j, token);
    RootOpens(f, g, a, s + 1, token, anchor, c.maxNodes);
    RootUnderway(c, q, g, f.made, a, s + 1, token, j, f.frames[s + 1 := |f.made|]);
  }

  lemma NotCounted(f: Forest, a: nat)
    requires a > 0 && UpTo(f, a - 1)
    ensures F.Count(f, a) == 0
  {
  }

  lemma AbleRoom(c: Config)
    requires Able(c)
    ensures c.maxNodes > 0
  {
  }

  lemma RootUnderway(c: Config, q: Play, g: Forest, before: seq<Tree>, a: nat, root: nat, token: Bytes, j: nat,
                     frames: map<nat, nat>)
    requires Stage(c, q, g, a, [FrameAt(Outer(a, Phase.Start), root)], root, map[token := SCOPE], j)
    requires Serving(g, before, a, root, token, 1, frames) && c.maxNodes > 0
    ensures Underway(c, q, g, before, a, [], root, 0, token, j, frames)
  {
    hide Stage, Serving, STAMP, QUERY, QUERY_TEXT, CALL;
    assert [OuterFrame(a, root)] + [] == [FrameAt(Outer(a, Phase.Start), root)];
  }

  /** The last statement under it begins, and the record of its end looks like a marker query. */
  lemma LastRuns(
      c: Config, p: Play, f: Forest, before: seq<Tree>, a: nat, root: nat, k: nat, token: Bytes, j: nat,
      frames: map<nat, nat>) returns (q: Play, g: Forest)
    requires Able(c) && Underway(c, p, f, before, a, [], root, k, token, j, frames) && a > 0
    requires root in frames && frames[root] == |before| && |frames| < F.MAX_FRAMES && token != UNKNOWN_TOKEN
    ensures Underway(c, q, g, before, a, [], root, k + 1, token, j, frames[root + k + 1 := |before|])
    ensures k + 1 < c.maxNodes ==> NewestRuns(g.made, before, k + 1)
  {
    hide Able, Underway, NewestRuns;
    q, g := InnerBegins(c, p, f, before, a, root, k, token, j, frames);
    q := LastEnds(c, q, g, before, a, root, k + 1, token, j, frames[root + k + 1 := |before|]);
  }

  lemma LastEnds(
      c: Config, p: Play, f: Forest, before: seq<Tree>, a: nat, root: nat, k: nat, token: Bytes, j: nat,
      frames: map<nat, nat>) returns (q: Play)
    requires Able(c) && a > 0 && k > 0 && token != UNKNOWN_TOKEN
    requires Underway(c, p, f, before, a, [FrameAt(Inner(a, Finish, []), root + k)], root, k, token, j, frames)
    ensures Underway(c, q, f, before, a, [], root, k, token, j, frames)
  {
    hide Able, Stage, Serving, STAMP, QUERY, QUERY_TEXT, CALL, Stacked, UNKNOWN_TOKEN, F.Announced;
    TokensAreTokens(0);
    var r, stack, s, scopes := Inner(a, Finish, UNKNOWN_TOKEN), [OuterFrame(a, root)], root + k, map[token := SCOPE];
    assert FrameAt(r, s) == FrameAt(Inner(a, Finish, []), s) && stack + [] == stack;
    q := MarkedEnds(c, p, f, a, stack, s, s, r, scopes, j);
    ServingMade(f, before, a, root, token, Min(c.maxNodes, k + 1), frames);
    NothingAnnounced(f, r, c.clock(r.timestamp), c.bounds.maxPending);
  }

  lemma NothingAnnounced(f: Forest, e: Event, anchor: Option<int>, maxPending: nat)
    requires f.pending == map[]
    ensures F.Announced(f, e, false, anchor, maxPending) == f
  {
    assert f.pending - {e.attachment} == map[];
  }

  /** The last turn sends `x`. */
  ghost predicate JustSent(c: Config, r: Run, x: Sending) {
    0 < |r.turns| < |r.forests| && SentIn(c, r, |r.turns| - 1, x)
  }

  /** The root ends: the tree is sent, and of its frames those stay that are not in its index. */
  lemma OuterEnds(
      c: Config, p: Play, f: Forest, before: seq<Tree>, a: nat, root: nat, k: nat, token: Bytes, j: nat,
      frames: map<nat, nat>) returns (q: Play, g: Forest, x: Sending)
    requires Able(c) && Underway(c, p, f, before, a, [], root, k, token, j, frames) && a > 0 && root > 0
    requires root in frames && frames[root] == |before|
    ensures Stage(c, q, g, a, [], root + k, map[], j) && Quiet(g, a) && JustSent(c, q.run, x)
    ensures |f.made| > |before| && g.frames == frames - f.made[|before|].index.Keys
    ensures x.tree.complete && |x.tree.nodes| == Min(c.maxNodes, k + 1) == |f.made[|before|].nodes|
    ensures forall i :: 0 < i < |x.tree.nodes| ==> x.tree.nodes[i] == f.made[|before|].nodes[i]
  {
    hide *;
    UnderwayStage(c, p, f, before, a, root, k, token, j, frames);
    RootIsSound(c, p, f, a, root, root + k, token, j);
    var e, n := Outer(a, Finish).(sequence := root), Min(c.maxNodes, k + 1);
    var r := F.Finished(f, e);
    OuterCloses(f, r, before, a, root, token, n, frames);
    q, g := RootEnds(c, p, f, a, root, root + k, j, token, |before|);
    x := Sending(r.made[|before|], SCOPE);
    EndOfRoot(a, root);
    RootIsSent(c, q.run, f, e, |before|, x);
  }

  lemma EndOfRoot(a: nat, root: nat)
    requires root > 0
    ensures var e := Outer(a, Finish).(sequence := root); Ends(e) && e.phase == Finish && e.kind != Gap
  {
    hide STAMP, CALL;
  }

  lemma UnderwayStage(
      c: Config, p: Play, f: Forest, before: seq<Tree>, a: nat, root: nat, k: nat, token: Bytes, j: nat,
      frames: map<nat, nat>)
    requires Underway(c, p, f, before, a, [], root, k, token, j, frames)
    ensures Stage(c, p, f, a, [FrameAt(Outer(a, Finish), root)], root + k, map[token := SCOPE], j)
    ensures Serving(f, before, a, root, token, Min(c.maxNodes, k + 1), frames)
    ensures f.live == {|before|} && |before| < |f.made| && f.made[|before|].token == token
    ensures |f.made[|before|].nodes| == Min(c.maxNodes, k + 1)
  {
    hide Stage, Outer;
    assert [OuterFrame(a, root)] + [] == [FrameAt(Outer(a, Finish), root)];
  }

  lemma RootIsSound(c: Config, p: Play, f: Forest, a: nat, root: nat, s: nat, token: Bytes, j: nat)
    requires Stage(c, p, f, a, [FrameAt(Outer(a, Finish), root)], s, map[token := SCOPE], j)
    ensures F.Sound(f) && F.Rooted(f)
  {
    hide *;
    StageSound(c, p, f, a, [FrameAt(Outer(a, Finish), root)], s, map[token := SCOPE], j);
    StageRooted(c, p, f, a, [FrameAt(Outer(a, Finish), root)], s, map[token := SCOPE], j);
  }

  lemma StageRooted(
      c: Config, p: Play, f: Forest, a: nat, stack: seq<Frame>, s: nat, scopes: map<R.Token, R.Scope>, j: nat)
    requires Stage(c, p, f, a, stack, s, scopes, j)
    ensures F.Rooted(f)
  {
    hide Stage, F.Rooted;
    StageIsFine(c, p, f, a, stack, s, scopes, j);
  }

  lemma RootIsSent(c: Config, r: Run, f: Forest, e: Event, id: nat, x: Sending)
    requires F.Sound(f) && F.Rooted(f) && Ends(e) && e.phase == Finish && e.kind != Gap
    requires 0 < |r.turns| < |r.forests| && r.forests[|r.turns| - 1] == f
    requires r.turns[|r.turns| - 1].visits == [Visit(id, Some(SCOPE))]
    requires r.turns[|r.turns| - 1].cause == Took(e, None, None)
    requires id < |F.Finished(f, e).made| && x == Sending(F.Finished(f, e).made[id], SCOPE) && x.tree.complete
    ensures JustSent(c, r, x)
  {
    hide F.Sound, F.Rooted, F.Finished;
    assert SendsIn(c, r, |r.turns| - 1, 0, x);
  }

  lemma UnderwayMade(
      c: Config, p: Play, f: Forest, before: seq<Tree>, a: nat, stack: seq<Frame>, root: nat, k: nat, token: Bytes,
      j: nat, frames: map<nat, nat>)
    requires Underway(c, p, f, before, a, stack, root, k, token, j, frames)
    ensures |before| < |f.made| && f.made[..|before|] == before
    ensures forall n: nat :: n in f.made[|before|].index <==> root <= n < root + Min(c.maxNodes, k + 1)
  {
    hide Stage;
  }

  /** An announced statement of attachment `j + 1` with `m` statements under it, the last of which ends marked. */
  lemma StatementRuns(c: Config, p: Play, f: Forest, j: nat, s: nat, m: nat) returns (q: Play, g: Forest, x: Sending)
    requires Able(c) && j < 4096 && Stage(c, p, f, 0, [], s, map[], j) && Quiet(f, j) && m > 0
    requires |f.frames| < F.MAX_FRAMES - 1
    ensures Stage(c, q, g, 0, [], s + 2 + m, map[], j + 1) && Quiet(g, j + 1) && JustSent(c, q.run, x)
    ensures g.frames == if m < c.maxNodes then f.frames else f.frames[s + 2 + m := |f.made|]
    ensures x.tree.complete && |x.tree.nodes| == Min(c.maxNodes, m + 1)
    ensures m < c.maxNodes ==> x.tree.nodes[m].finish == None
  {
    hide *;
    FramesAreOld(c, p, f, 0, [], s, map[], j);
    q, g := RootRuns(c, p, f, j, s);
    q, g, x := BodyRuns(c, q, g, f.made, j + 1, s + 2, m, TokenOf(j), j + 1, f.frames);
    StageElsewhere(c, q, g, j + 1, 0, s + 2 + m, map[], j + 1);
  }

  lemma RootRuns(c: Config, p: Play, f: Forest, j: nat, s: nat) returns (q: Play, g: Forest)
    requires Able(c) && j < 4096 && Stage(c, p, f, 0, [], s, map[], j) && Quiet(f, j) && |f.frames| < F.MAX_FRAMES
    ensures Underway(c, q, g, f.made, j + 1, [], s + 2, 0, TokenOf(j), j + 1, f.frames[s + 2 := |f.made|])
    ensures TokenOf(j) != UNKNOWN_TOKEN
  {
    hide Able, Stage, Quiet, Underway, UpTo, TokenOf, UNKNOWN_TOKEN;
    TokensAreTokens(j);
    QuietFields(f, j);
    var anchor;
    q, g, anchor := Announces(c, p, f, j, s);
    UpToFields(f, g, j);
    q, g := OuterBegins(c, q, g, j + 1, s + 1, TokenOf(j), anchor, j + 1);
  }

  lemma BodyRuns(
      c: Config, p: Play, f: Forest, before: seq<Tree>, a: nat, root: nat, m: nat, token: Bytes, j: nat,
      frames: map<nat, nat>) returns (q: Play, g: Forest, x: Sending)
    requires Able(c) && Underway(c, p, f, before, a, [], root, 0, token, j, frames[root := |before|]) && a > 0 && m > 0
    requires (forall n :: n in frames ==> n < root) && |frames| < F.MAX_FRAMES - 1 && token != UNKNOWN_TOKEN && root > 0
    ensures Stage(c, q, g, a, [], root + m, map[], j) && Quiet(g, a) && JustSent(c, q.run, x)
    ensures g.frames == if m < c.maxNodes then frames else frames[root + m := |before|]
    ensures x.tree.complete && |x.tree.nodes| == Min(c.maxNodes, m + 1)
    ensures m < c.maxNodes ==> x.tree.nodes[m].finish == None
  {
    hide *;
    var under := frames[root := |before|];
    FramesUnder(frames, under, |before|, root);
    q, g := UnderRuns(c, p, f, before, a, root, m, token, j, under);
    q, g, x := EndRuns(c, q, g, before, a, root, m, token, j, frames, under[root + m := |before|]);
  }

  lemma FramesUnder(frames: map<nat, nat>, under: map<nat, nat>, id: nat, root: nat)
    requires (forall n :: n in frames ==> n < root) && |frames| < F.MAX_FRAMES - 1 && under == frames[root := id]
    ensures |under| < F.MAX_FRAMES && (forall n :: n in under ==> n <= root) && root in under && under[root] == id
  {
    assert frames == under - {root};
  }

  lemma UnderRuns(
      c: Config, p: Play, f: Forest, before: seq<Tree>, a: nat, root: nat, m: nat, token: Bytes, j: nat,
      under: map<nat, nat>) returns (q: Play, g: Forest)
    requires Able(c) && Underway(c, p, f, before, a, [], root, 0, token, j, under) && a > 0 && m > 0
    requires (forall n :: n in under ==> n <= root) && |under| < F.MAX_FRAMES && token != UNKNOWN_TOKEN
    requires root in under && under[root] == |before|
    ensures Underway(c, q, g, before, a, [], root, m, token, j, under[root + m := |before|])
    ensures m < c.maxNodes ==> NewestRuns(g.made, before, m)
  {
    hide *;
    q, g := Inners(c, p, f, before, a, root, m - 1, token, j, under);
    q, g := LastRuns(c, q, g, before, a, root, m - 1, token, j, under);
  }

  lemma EndRuns(
      c: Config, p: Play, f: Forest, before: seq<Tree>, a: nat, root: nat, m: nat, token: Bytes, j: nat,
      frames: map<nat, nat>, longer: map<nat, nat>) returns (q: Play, g: Forest, x: Sending)
    requires Able(c) && Underway(c, p, f, before, a, [], root, m, token, j, longer) && a > 0 && m > 0 && root > 0
    requires (forall n :: n in frames ==> n < root) && longer == frames[root := |before|][root + m := |before|]
    requires m < c.maxNodes ==> NewestRuns(f.made, before, m)
    ensures Stage(c, q, g, a, [], root + m, map[], j) && Quiet(g, a) && JustSent(c, q.run, x)
    ensures g.frames == if m < c.maxNodes then frames else frames[root + m := |before|]
    ensures x.tree.complete && |x.tree.nodes| == Min(c.maxNodes, m + 1)
    ensures m < c.maxNodes ==> x.tree.nodes[m].finish == None
  {
    hide *;
    AbleRoom(c);
    UnderwayMade(c, p, f, before, a, [], root, m, token, j, longer);
    q, g, x := OuterEnds(c, p, f, before, a, root, m, token, j, longer);
    FramesLeft(frames, longer, |before|, root, m, c.maxNodes, f.made[|before|].index.Keys);
    if m < c.maxNodes {
      NewestFinish(f.made, before, m);
    }
  }

  lemma QuietFields(f: Forest, j: nat)
    requires Quiet(f, j)
    ensures f.live == {} && f.pending == map[] && UpTo(f, j)
  {
    hide UpTo;
  }

  lemma NewestFinish(made: seq<Tree>, before: seq<Tree>, k: nat)
    requires NewestRuns(made, before, k)
    ensures |made| > |before| && |made[|before|].nodes| == k + 1 && made[|before|].nodes[k].finish == None
  {
  }

  lemma FramesLeft(
      frames: map<nat, nat>, longer: map<nat, nat>, id: nat, root: nat, m: nat, maxNodes: nat, gone: set<nat>)
    requires (forall n :: n in frames ==> n < root) && m > 0 && maxNodes > 0
    requires longer == frames[root := id][root + m := id]
    requires forall n: nat :: n in gone <==> root <= n < root + Min(maxNodes, m + 1)
    ensures longer - gone == if m < maxNodes then frames else frames[root + m := id]
  {
    hide F.MAX_FRAMES;
  }

  // ---- what such streams show

  lemma StartedStage(c: Config)
    requires Able(c)
    ensures Stage(c, STARTED, F.BARE, 0, [], 0, map[], 0) && Quiet(F.BARE, 0)
  {
    NothingPlayed(c);
    hide Playing;
    assert R.After(c.bounds, []) == R.IDLE;
    ActAppended(c, [], R.Begin);
    assert [] + [R.Begin] == [R.Begin];
  }

  /**
   * So completeness at export does fail: a run from the first record on that exports a complete tree with as many nodes
   * as one likes and may be, the last of which is over but has no finish.
   */
  lemma MarkedFinishLeavesNodeIncomplete(c: Config, m: nat) returns (p: Play, x: Sending)
    requires Able(c) && 0 < m < c.maxNodes
    ensures Playing(c, p) && JustSent(c, p.run, x)
    ensures x.tree.complete && |x.tree.nodes| == m + 1 && x.tree.nodes[m].finish == None
  {
    hide Able, Stage, Quiet, JustSent;
    StartedStage(c);
    var g;
    p, g, x := StatementRuns(c, STARTED, F.BARE, 0, 0, m);
    StageIsFine(c, p, g, 0, [], 2 + m, map[], 1);
  }

  /**
   * And frames are left behind: for every number that the bound on stale frames allows, a run from the first record on
   * after which no tree is followed and so many frames are there.
   */
  lemma {:induction false} LeaksReachTheBound(c: Config, j: nat) returns (p: Play, f: Forest)
    requires Able(c) && j < F.MAX_FRAMES
    ensures Playing(c, p) && f == Now(c, p) && f.live == {} && |f.frames| == j && |Leaks.StaleFrames(f)| == j
  {
    hide Able, Stage, Quiet;
    var s;
    p, f, s := LeftBehind(c, j);
    StageIsFine(c, p, f, 0, [], s, map[], j);
    QuietFields(f, j);
    assert Leaks.StaleFrames(f) == f.frames.Keys;
  }

  lemma {:induction false} LeftBehind(c: Config, j: nat) returns (p: Play, f: Forest, s: nat)
    requires Able(c) && j < F.MAX_FRAMES
    ensures Stage(c, p, f, 0, [], s, map[], j) && Quiet(f, j) && |f.frames| == j
  {
    hide Able, Stage, Quiet, JustSent;
    if j == 0 {
      StartedStage(c);
      p, f, s := STARTED, F.BARE, 0;
    } else {
      p, f, s := LeftBehind(c, j - 1);
      AbleRoom(c);
      FramesAreOld(c, p, f, 0, [], s, map[], j - 1);
      var x, before, m := Sending(F.Tree([], 0, [], map[], false, false), SCOPE), f, c.maxNodes;
      p, f, x := StatementRuns(c, p, f, j - 1, s, m);
      assert f.frames == before.frames[s + 2 + m := |before.made|];
      s := s + 2 + m;
    }
  }
}
