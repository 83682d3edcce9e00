/**
 * Over a whole run, an announced statement whose scope is found whenever it is asked for is exported: by the first
 * flush after its end that finds the scope bound (trace/spans.go, consume and flush).
 */
module SpanDelivery {
  import opened Options
  import opened TraceEvents
  import opened TracePairing
  import opened SpanFamily
  import opened SpanLinks
  import opened SpanMachine
  import F = SpanForest
  import Leaks = SpanLeaks
  import R = SpanRegistry
  import SpanPlay

  // ---- what it takes

  /** Every lookup of the token in this stretch finds its scope. */
  ghost predicate Answers(b: R.Bounds, acts: seq<R.Act>, since: nat, until: nat, token: R.Token) {
    forall at :: since <= at < until <= |acts| && acts[at].Lookup? && acts[at].token == token ==>
      FoundAt(b, acts, at, token).Some?
  }

  function FoundAt(b: R.Bounds, acts: seq<R.Act>, at: nat, token: R.Token): Option<R.Scope>
    requires at < |acts| && acts[at].Lookup?
  {
    R.Found(b, R.After(b, acts[..at]), token, acts[at].now)
  }

  /** And finds a span bound to it. */
  ghost predicate AnswersBound(b: R.Bounds, acts: seq<R.Act>, since: nat, until: nat, token: R.Token) {
    forall at :: since <= at < until <= |acts| && acts[at].Lookup? && acts[at].token == token ==>
      FoundAt(b, acts, at, token).Some? && FoundAt(b, acts, at, token).value.parent.valid
  }

  /** The event makes the consumer give an attachment up, or everything. */
  predicate GivesUp(x: Event, attachment: nat) {
    || x.kind == Gap
    || ((x.attachment == attachment || x.attachment == 0)
        && if x.scopeToken != [] then x.phase == Finish && (x.sequence == 0 || x.correlation == Unmatched)
           else x.sequence == 0 && x.incomplete && x.kind in {Statement, Procedure, Function, Trigger})
  }

  /** A start under the tree finds room for its frame. */
  ghost predicate HasRoom(f: Forest, cause: Cause, id: nat) {
    cause.Took? && Collects(cause.e) && F.Opened(f, cause.e, cause.announced.Some?).1 == Some(id) ==>
      |f.frames| < F.MAX_FRAMES
  }

  /** A turn that lets the tree be: it neither ends the stream nor gives the attachment up, and finds room and scope. */
  ghost predicate Spares(b: R.Bounds, acts: seq<R.Act>, f: Forest, t: Turn, id: nat, token: R.Token, attachment: nat) {
    && !t.cause.StreamOver? && (t.cause.Took? ==> !GivesUp(t.cause.e, attachment))
    && HasRoom(f, t.cause, id) && Answers(b, acts, t.since, t.until, token)
  }

  /** The tree of this start is followed. */
  ghost predicate Follows(f: Forest, id: nat, e: Event, token: R.Token) {
    id in f.live && id < |f.made| && ForStart(f.made[id], e, token)
  }

  ghost predicate ForStart(t: Tree, e: Event, token: R.Token) {
    t.token == token && t.nodes != [] && t.nodes[0].start == e
  }

  lemma AnsweredSome(b: R.Bounds, acts: seq<R.Act>, since: nat, until: nat, token: R.Token, answer: Option<R.Scope>)
    requires Asked(b, acts, since, until, token, answer) && until <= |acts|
    ensures Answers(b, acts, since, until, token) ==> answer.Some?
    ensures AnswersBound(b, acts, since, until, token) ==> answer.Some? && answer.value.parent.valid
  {
    hide R.After, R.Found;
    var at :| since <= at < until && AnsweredAt(b, acts, at, token, answer);
    assert FoundAt(b, acts, at, token) == answer;
  }

  // ---- one turn

  lemma StartFollows(
      f: Forest, x: Event, announced: bool, found: bool, maxNodes: nat, id: nat, e: Event, token: R.Token)
    requires F.Sound(f) && Follows(f, id, e, token)
    requires F.Opened(f, x, announced).1 == Some(id) ==> found && |f.frames| < F.MAX_FRAMES
    ensures Follows(F.Started(f, x, announced, found, maxNodes), id, e, token)
  {
    hide F.Activated, F.TakesPending, F.Owner;
    var (g, tree) := F.Opened(f, x, announced);
    ActivatedKeeps(g, x);
    OpenedKeeps(f, x, announced);
    hide F.Opened;
    assert id < |g.made| && g.made[id] == f.made[id];
  }

  lemma FinishFollows(f: Forest, x: Event, id: nat, e: Event, token: R.Token)
    requires F.Sound(f) && Follows(f, id, e, token)
    ensures Follows(F.Finished(f, x), id, e, token)
  {
    hide F.Deactivated;
    DeactivatedFields(f, x.sequence);
  }

  lemma ReadFollows(c: Config, acts: seq<R.Act>, f: Forest, t: Turn, id: nat, e: Event, token: R.Token)
    requires F.Sound(f) && F.Rooted(f) && CauseOk(c, acts, f, t) && t.until <= |acts|
    requires Follows(f, id, e, token) && Spares(c.bounds, acts, f, t, id, token, e.attachment)
    requires t.cause.Took? ==> PhaseOk(t.cause.e)
    ensures Follows(Read(c, f, t.cause), id, e, token)
  {
    if t.cause.Took? {
      var x := t.cause.e;
      if x.kind != Gap && x.scopeToken == [] && x.sequence > 0 {
        if x.phase == Phase.Start {
          ChildIsFound(c, acts, f, t, id, e, token);
          StartFollows(f, x, t.cause.announced.Some?, t.cause.found.Some?, c.maxNodes, id, e, token);
        } else {
          FinishFollows(f, x, id, e, token);
        }
      } else {
        OtherFollows(c, f, x, t.cause.found.Some?, id, e, token);
      }
    }
  }

  /** A start under the tree asked for its token and found it. */
  lemma ChildIsFound(c: Config, acts: seq<R.Act>, f: Forest, t: Turn, id: nat, e: Event, token: R.Token)
    requires F.Sound(f) && F.Rooted(f) && CauseOk(c, acts, f, t) && t.until <= |acts|
    requires Follows(f, id, e, token) && Spares(c.bounds, acts, f, t, id, token, e.attachment)
    requires t.cause.Took? && Collects(t.cause.e)
    ensures F.Opened(f, t.cause.e, t.cause.announced.Some?).1 == Some(id) ==>
      t.cause.found.Some? && |f.frames| < F.MAX_FRAMES
  {
    hide F.Opened, Asked, Withdrawn, Answers, AnswersBound, F.Sound, F.Rooted;
    var (g, tree) := F.Opened(f, t.cause.e, t.cause.announced.Some?);
    OpenedKeeps(f, t.cause.e, t.cause.announced.Some?);
    if tree == Some(id) {
      AnsweredSome(c.bounds, acts, t.since, t.until, token, t.cause.found);
    }
  }

  lemma OtherFollows(c: Config, f: Forest, x: Event, found: bool, id: nat, e: Event, token: R.Token)
    requires F.Sound(f) && F.Rooted(f) && Follows(f, id, e, token) && !GivesUp(x, e.attachment)
    requires x.kind != Gap && (x.scopeToken != [] || x.sequence == 0)
    ensures Follows(Consumed(c, f, x, false, found), id, e, token)
  {
  }

  /** The flush of this turn sends the tree of this start. */
  ghost predicate Delivers(c: Config, f: Forest, t: Turn, e: Event, token: R.Token)
    requires F.Sound(f) && F.Rooted(f)
  {
    exists i: nat, s: Sending :: i < |t.visits| && SendsFor(Read(c, f, t.cause), t.visits[i], s, e, token)
  }

  ghost predicate SendsFor(f: Forest, v: Visit, s: Sending, e: Event, token: R.Token) {
    SendsAs(f, v, s) && ForStart(s.tree, e, token)
  }

  /** A flush that finds the scope of a tree sends or keeps the tree, and does not keep it when complete and bound. */
  lemma FlushFollows(
      b: R.Bounds, acts: seq<R.Act>, since: nat, until: nat, f: Forest, visits: seq<Visit>, id: nat, e: Event,
      token: R.Token) returns (i: nat, s: Sending)
    requires FlushOk(b, acts, since, until, f, visits) && until <= |acts| && Follows(f, id, e, token)
    requires Answers(b, acts, since, until, token)
    ensures Follows(Swept(f, visits), id, e, token) || (i < |visits| && SendsFor(f, visits[i], s, e, token))
    ensures f.made[id].complete && AnswersBound(b, acts, since, until, token) ==>
      i < |visits| && SendsFor(f, visits[i], s, e, token)
  {
    hide Asked, Withdrawn, Answers, AnswersBound, Swept;
    assert Visited(visits, id);
    i :| 0 <= i < |visits| && visits[i].id == id;
    assert VisitOk(b, acts, since, until, f, visits[i]);
    AnsweredSome(b, acts, since, until, token, visits[i].answer);
    s := Sending(f.made[id], visits[i].answer.value);
    SweptLive(f, visits, id);
    SweptFields(f, visits);
    if LeftBy(f, visits, id) {
      var j :| 0 <= j < |visits| && visits[j].id == id && Leaves(f, visits[j]);
      assert i == j;
    }
  }

  /** Over a turn that spares it the tree is followed on, or sent. */
  lemma TurnFollows(c: Config, acts: seq<R.Act>, f: Forest, t: Turn, g: Forest, id: nat, e: Event, token: R.Token)
    requires TurnOk(c, acts, f, t, g) && (t.cause.Took? ==> PhaseOk(t.cause.e))
    requires Follows(f, id, e, token) && Spares(c.bounds, acts, f, t, id, token, e.attachment)
    ensures F.Sound(f) && F.Rooted(f) && (Follows(g, id, e, token) || Delivers(c, f, t, e, token))
  {
    ReadFollows(c, acts, f, t, id, e, token);
    hide F.Sound, F.Rooted, CauseOk, FlushOk, Read, Flushes, SendsFor, Answers;
    var r := Read(c, f, t.cause);
    if Flushes(f, t.cause) {
      var i, s := FlushFollows(c.bounds, acts, t.since, t.until, r, t.visits, id, e, token);
    } else {
      Leaks.SweptNothing(r);
    }
  }

  // ---- the beginning and the end

  /** The announced statement begins: its tree is followed from then on. */
  lemma RootFollows(c: Config, acts: seq<R.Act>, f: Forest, t: Turn, g: Forest, e: Event)
    requires TurnOk(c, acts, f, t, g) && t.cause.Took? && t.cause.e == e && Collects(e) && c.maxNodes > 0
    requires F.TakesPending(f, e) && |f.frames| < F.MAX_FRAMES
    requires Answers(c.bounds, acts, t.since, t.until, f.pending[e.attachment].token)
    ensures Follows(g, |f.made|, e, f.pending[e.attachment].token)
  {
    var token := f.pending[e.attachment].token;
    RootIsFound(c, acts, f, t, e);
    Leaks.SweptNothing(Read(c, f, t.cause));
    var h := F.Opened(f, e, true).0;
    assert h.frames == f.frames && |h.made| == |f.made| + 1 && h.made[|f.made|].nodes == [];
    assert h.made[|f.made|].token == token && |f.made| in h.live;
    hide F.Sound, F.Rooted, CauseOk, FlushOk, Answers, F.TakesPending;
    ActivatedKeeps(h, e);
  }

  lemma RootIsFound(c: Config, acts: seq<R.Act>, f: Forest, t: Turn, e: Event)
    requires F.Sound(f) && F.Rooted(f) && CauseOk(c, acts, f, t) && t.until <= |acts|
    requires t.cause.Took? && t.cause.e == e && Collects(e) && F.TakesPending(f, e)
    requires Answers(c.bounds, acts, t.since, t.until, f.pending[e.attachment].token)
    ensures t.cause.announced.Some? && t.cause.found.Some?
  {
    hide Asked, Withdrawn, Answers, AnswersBound, F.Sound, F.Rooted;
    var token := f.pending[e.attachment].token;
    AnsweredSome(c.bounds, acts, t.since, t.until, token, t.cause.announced);
    assert F.Opened(f, e, true).0.made[|f.made|].token == token;
    AnsweredSome(c.bounds, acts, t.since, t.until, token, t.cause.found);
  }

  /** Once the end of its root was read, a tree that is followed is complete. */
  lemma EndedIsComplete(f: Forest, h: seq<Event>, maxNodes: nat, id: nat, e: Event, token: R.Token)
    requires AllLinked(f, h, maxNodes) && Follows(f, id, e, token) && Ended(h, e.sequence)
    ensures f.made[id].complete
  {
    hide Ended, Family, FrameLive, FramesOk, IndexOk, F.Sound;
    assert Linked(f, h, id, maxNodes);
    assert NodeOk(h, f.made[id].nodes[0]);
  }

  /** The end of a root makes the consumer flush. */
  lemma EndCompletes(f: Forest, h: seq<Event>, x: Event, maxNodes: nat, id: nat, e: Event, token: R.Token)
    requires AllLinked(f, h, maxNodes) && Follows(f, id, e, token) && History(h + [x])
    requires Ends(x) && x.sequence == e.sequence && F.Sound(f)
    ensures F.Completes(f, x)
  {
    hide History, Family, FrameLive, NodeOk, F.Sound, Starts;
    assert Linked(f, h, id, maxNodes);
    NotEndedBefore(h, x);
    var t := f.made[id];
    hide Ended;
    FirstIsMember(Family(h, e.sequence));
    assert t.nodes[0].start == Family(h, e.sequence)[0];
  }

  lemma NotEndedBefore(h: seq<Event>, x: Event)
    requires History(h + [x]) && Ends(x)
    ensures !Ended(h, x.sequence)
  {
    hide Numbered, FinishesMatch, AlwaysNested, ParentsOpen, Phased;
    var g := h + [x];
    forall j | 0 <= j < |h| && Ends(h[j]) ensures h[j].sequence != x.sequence {
      assert g[j] == h[j] && g[|h|] == x;
    }
  }

  // ---- over a run

  ghost predicate SparesAt(
      c: Config, acts: seq<R.Act>, r: Run, m: nat, id: nat, token: R.Token, attachment: nat)
  {
    m < |r.turns| < |r.forests| && Spares(c.bounds, acts, r.forests[m], r.turns[m], id, token, attachment)
  }

  ghost predicate DeliversAt(c: Config, r: Run, m: nat, e: Event, token: R.Token) {
    && m < |r.turns| < |r.forests| && F.Sound(r.forests[m]) && F.Rooted(r.forests[m])
    && Delivers(c, r.forests[m], r.turns[m], e, token)
  }

  /** What a run knows about one of its turns. */
  lemma TurnOf(c: Config, acts: seq<R.Act>, r: Run, m: nat)
    requires Steps(c, acts, r) && History(EventsOf(r.turns)) && m < |r.turns|
    ensures |r.forests| == |r.turns| + 1 && TurnOk(c, acts, r.forests[m], r.turns[m], r.forests[m + 1])
    ensures AllLinked(r.forests[m], EventsOf(r.turns[..m]), c.maxNodes)
    ensures r.turns[m].cause.Took? ==>
      History(EventsOf(r.turns[..m]) + [r.turns[m].cause.e]) && PhaseOk(r.turns[m].cause.e)
  {
    hide TurnOk, AllLinked, EventsOf, History;
    Leaks.RunHistory(r.turns, m);
    if r.turns[m].cause.Took? {
      Leaks.EventPhase(EventsOf(r.turns[..m]), r.turns[m].cause.e);
    }
  }

  lemma {:induction false} FollowedOrSent(
      c: Config, acts: seq<R.Act>, r: Run, k: nat, m: nat, id: nat, e: Event, token: R.Token)
    requires Steps(c, acts, r) && History(EventsOf(r.turns)) && k < m <= |r.turns| < |r.forests|
    requires Follows(r.forests[k + 1], id, e, token)
    requires forall n :: k < n < m ==> SparesAt(c, acts, r, n, id, token, e.attachment)
    ensures Follows(r.forests[m], id, e, token) || exists n: nat :: k < n < m && DeliversAt(c, r, n, e, token)
    decreases m
  {
    hide Steps, TurnOk, EventsOf, History, Follows, Spares, Delivers, AllLinked;
    if m > k + 1 {
      FollowedOrSent(c, acts, r, k, m - 1, id, e, token);
      if Follows(r.forests[m - 1], id, e, token) {
        TurnOf(c, acts, r, m - 1);
        assert SparesAt(c, acts, r, m - 1, id, token, e.attachment);
        TurnFollows(c, acts, r.forests[m - 1], r.turns[m - 1], r.forests[m], id, e, token);
        assert Follows(r.forests[m], id, e, token) || DeliversAt(c, r, m - 1, e, token);
      }
    }
  }

  lemma {:induction false} EndedSince(turns: seq<Turn>, j: nat, m: nat, n: nat)
    requires j < m <= |turns| && turns[j].cause.Took? && Ends(turns[j].cause.e) && turns[j].cause.e.sequence == n
    ensures Ended(EventsOf(turns[..m]), n)
    decreases m
  {
    hide EventsOf, Ended;
    assert turns[..m] == turns[..m - 1] + [turns[m - 1]];
    EventsAppend(turns[..m - 1], turns[m - 1]);
    var h := EventsOf(turns[..m - 1]);
    if j < m - 1 {
      EndedSince(turns, j, m - 1, n);
      assert h + [] == h;
    }
    if turns[m - 1].cause.Took? {
      EndedAppend(h, turns[m - 1].cause.e, n);
    }
  }

  /** An announced statement begins, and there is room for its frame. */
  ghost predicate Begins(r: Run, k: nat, e: Event) {
    && k < |r.turns| < |r.forests| && r.turns[k].cause.Took? && r.turns[k].cause.e == e && Collects(e)
    && F.TakesPending(r.forests[k], e) && |r.forests[k].frames| < F.MAX_FRAMES
  }

  ghost predicate EndsAt(r: Run, j: nat, e: Event) {
    j < |r.turns| && r.turns[j].cause.Took? && Ends(r.turns[j].cause.e) && r.turns[j].cause.e.sequence == e.sequence
  }

  ghost predicate FlushesAt(r: Run, l: nat) {
    l < |r.turns| < |r.forests| && F.Sound(r.forests[l]) && Flushes(r.forests[l], r.turns[l].cause)
  }

  /** The flush of turn `l`, which is not before the end of the root, sends the tree when it finds the scope bound. */
  lemma BoundIsSent(
      c: Config, acts: seq<R.Act>, r: Run, j: nat, l: nat, id: nat, e: Event, token: R.Token)
    requires Steps(c, acts, r) && History(EventsOf(r.turns)) && j <= l < |r.turns| < |r.forests|
    requires Follows(r.forests[l], id, e, token) && EndsAt(r, j, e) && (l == j || FlushesAt(r, l))
    requires AnswersBound(c.bounds, acts, r.turns[l].since, r.turns[l].until, token)
    ensures DeliversAt(c, r, l, e, token)
  {
    hide Steps, History, EventsOf, Follows, AllLinked, Ended, F.Completes, F.Sound, F.Rooted, CauseOk, FlushOk;
    hide AnswersBound, Answers, SendsFor, Swept, Consumed, Family;
    TurnOf(c, acts, r, l);
    var f, t, h := r.forests[l], r.turns[l], EventsOf(r.turns[..l]);
    if l == j {
      EndCompletes(f, h, t.cause.e, c.maxNodes, id, e, token);
    }
    BoundAnswers(c.bounds, acts, t.since, t.until, token);
    EndedSince(r.turns, j, l + 1, e.sequence);
    FlushIsLinked(c, r, l, id, e, token, acts);
    var read := Read(c, f, t.cause);
    EndedIsComplete(read, EventsOf(r.turns[..l + 1]), c.maxNodes, id, e, token);
    var i, s := FlushFollows(c.bounds, acts, t.since, t.until, read, t.visits, id, e, token);
  }

  lemma BoundAnswers(b: R.Bounds, acts: seq<R.Act>, since: nat, until: nat, token: R.Token)
    requires AnswersBound(b, acts, since, until, token)
    ensures Answers(b, acts, since, until, token)
  {
    hide FoundAt;
  }

  /** What such a flush starts from. */
  lemma FlushIsLinked(c: Config, r: Run, l: nat, id: nat, e: Event, token: R.Token, acts: seq<R.Act>)
    requires Steps(c, acts, r) && History(EventsOf(r.turns)) && l < |r.turns| < |r.forests|
    requires FlushesAt(r, l) && F.Rooted(r.forests[l]) && Follows(r.forests[l], id, e, token)
    ensures var read := Read(c, r.forests[l], r.turns[l].cause);
      Follows(read, id, e, token) && AllLinked(read, EventsOf(r.turns[..l + 1]), c.maxNodes)
  {
    hide Steps, History, EventsOf, Follows, AllLinked, TurnOk, F.Completes, F.Sound, F.Rooted, F.Finished, F.Started;
    TurnOf(c, acts, r, l);
    var f, t, h := r.forests[l], r.turns[l], EventsOf(r.turns[..l]);
    assert r.turns[..l + 1] == r.turns[..l] + [t];
    EventsAppend(r.turns[..l], t);
    if t.cause.Took? {
      SpanPlay.ReadKeepsLinked(c, f, h, t.cause.e, t.cause.announced.Some?, t.cause.found.Some?);
      FinishFollows(f, t.cause.e, id, e, token);
    } else {
      assert h + [] == h;
    }
  }

  /**
   * An announced statement of which every lookup finds the scope, while its attachment is not given up and its frames
   * find room, is exported with its root as it began: at the latest by the first flush from its end on that finds the
   * scope bound, which is the flush of that end itself if the scope is bound by then.
   */
  lemma AnnouncedTreeIsExported(c: Config, acts: seq<R.Act>, r: Run, k: nat, j: nat, l: nat, e: Event)
    returns (n: nat, s: Sending)
    requires Steps(c, acts, r) && History(EventsOf(r.turns)) && k < j <= l < |r.turns| < |r.forests|
    requires Begins(r, k, e) && EndsAt(r, j, e) && (l == j || FlushesAt(r, l))
    requires var token := r.forests[k].pending[e.attachment].token;
      && Answers(c.bounds, acts, r.turns[k].since, r.turns[k].until, token)
      && (forall m :: k < m < l ==> SparesAt(c, acts, r, m, |r.forests[k].made|, token, e.attachment))
      && AnswersBound(c.bounds, acts, r.turns[l].since, r.turns[l].until, token)
    ensures k < n <= l && SentIn(c, r, n, s)
    ensures s.tree.token == r.forests[k].pending[e.attachment].token
    ensures s.tree.complete && s.tree.nodes != [] && s.tree.nodes[0].start == e
  {
    hide Steps, History, EventsOf, Follows, TurnOk, AllLinked, Answers, AnswersBound, SparesAt, DeliversAt, FlushesAt;
    hide Collects, EndsAt;
    var id, token := |r.forests[k].made|, r.forests[k].pending[e.attachment].token;
    TurnOf(c, acts, r, k);
    RoomForOne(r.forests[k], EventsOf(r.turns[..k]), c.maxNodes);
    RootFollows(c, acts, r.forests[k], r.turns[k], r.forests[k + 1], e);
    FollowedOrSent(c, acts, r, k, l, id, e, token);
    if Follows(r.forests[l], id, e, token) {
      BoundIsSent(c, acts, r, j, l, id, e, token);
      n := l;
    } else {
      n :| k < n < l && DeliversAt(c, r, n, e, token);
    }
    s := DeliveryIsSent(c, r, n, e, token);
  }

  lemma RoomForOne(f: Forest, h: seq<Event>, maxNodes: nat)
    requires AllLinked(f, h, maxNodes)
    ensures maxNodes > 0
  {
  }

  lemma DeliveryIsSent(c: Config, r: Run, n: nat, e: Event, token: R.Token) returns (s: Sending)
    requires DeliversAt(c, r, n, e, token)
    ensures n < |r.turns| < |r.forests| && SentIn(c, r, n, s)
    ensures s.tree.complete && ForStart(s.tree, e, token)
  {
    hide F.Sound, F.Rooted, Read;
    var i: nat, x: Sending :|
      i < |r.turns[n].visits|
      && SendsFor(Read(c, r.forests[n], r.turns[n].cause), r.turns[n].visits[i], x, e, token);
    s := x;
    assert SendsIn(c, r, n, i, s);
  }
}
