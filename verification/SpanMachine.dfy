/**
 * The consumer as a machine on values: what each turn of its loop makes of the forest, given the answers to its
 * lookups, and what it owes for that among the critical sections of the mutex (trace/spans.go, consume).
 */
module SpanMachine {
  import opened Options
  import opened Utf8
  import opened TraceEvents
  import opened SpanRegistry
  import F = SpanForest
  import opened SpanFamily
  import opened SpanLinks
  import opened SpanLog

  datatype Config = Config(bounds: Bounds, maxNodes: nat, clock: Bytes -> Option<int>)

  /** One tree of a flush and the answer to the lookup of its token. */
  datatype Visit = Visit(id: nat, answer: Option<Scope>)

  /**
   * Why the loop woke up: an event, with the answers for the announced token and for the token of the tree or marker; a
   * scope that was bound; a second that went by, after which announcements are forgotten; or the end of the stream.
   */
  datatype Cause =
    | Took(e: Event, announced: Option<Scope>, found: Option<Scope>)
    | Woken
    | Second(forgotten: set<nat>)
    | StreamOver

  /** One turn of the loop, from critical section `since` up to `until`, and the trees that its flush visited. */
  datatype Turn = Turn(since: nat, until: nat, cause: Cause, visits: seq<Visit>)

  // ---- the forest

  /** What an event makes of the forest, before any flush. */
  function Consumed(c: Config, f: Forest, e: Event, announced: bool, found: bool): Forest
    requires F.Sound(f) && F.Rooted(f)
  {
    if e.kind == Gap then F.Cleared(f)
    else if e.scopeToken != [] then
      if e.phase != Finish then f
      else if e.sequence == 0 || e.correlation == Unmatched then F.ClearedAttachment(f, e.attachment)
      else F.Announced(f, e, found, c.clock(e.timestamp), c.bounds.maxPending)
    else if e.sequence == 0 then
      if e.incomplete && e.kind in {Statement, Procedure, Function, Trigger}
      then F.ClearedAttachment(f, e.attachment) else f
    else if e.phase == Start then F.Started(f, e, announced, found, c.maxNodes)
    else if e.phase == Finish then F.Finished(f, e)
    else f
  }

  function Read(c: Config, f: Forest, cause: Cause): Forest
    requires F.Sound(f) && F.Rooted(f)
  {
    if cause.Took? then Consumed(c, f, cause.e, cause.announced.Some?, cause.found.Some?) else f
  }

  /** Every turn flushes but that of an event which is not the end of a root. */
  predicate Flushes(f: Forest, cause: Cause)
    requires F.Sound(f)
  {
    cause.Took? ==> cause.e.kind != Gap && Ends(cause.e) && F.Completes(f, cause.e)
  }

  /** A flush, visiting the trees in the order in which the map gave them. */
  function Swept(f: Forest, visits: seq<Visit>): Forest {
    if visits == [] then f else
    var g, v := Swept(f, visits[..|visits| - 1]), visits[|visits| - 1];
    if v.id < |g.made| then F.Flushed(g, v.id, v.answer) else g
  }

  function Turned(c: Config, f: Forest, t: Turn): Forest
    requires F.Sound(f) && F.Rooted(f)
  {
    var g := Swept(Read(c, f, t.cause), t.visits);
    match t.cause
    case Second(forgotten) => g.(pending := g.pending - forgotten)
    case StreamOver => F.Without(g, g.live)
    case _ => g
  }

  // ---- what a turn owes

  ghost predicate AnsweredAt(b: Bounds, acts: seq<Act>, at: nat, token: Token, answer: Option<Scope>) {
    at < |acts| && acts[at].Lookup? && acts[at].token == token
    && answer == Found(b, After(b, acts[..at]), token, acts[at].now)
  }

  /** The answer is the one that a lookup of the token in this stretch got from the registry of that moment. */
  ghost predicate Asked(b: Bounds, acts: seq<Act>, since: nat, until: nat, token: Token, answer: Option<Scope>) {
    exists at :: since <= at < until && AnsweredAt(b, acts, at, token, answer)
  }

  ghost predicate Withdrawn(acts: seq<Act>, since: nat, until: nat, token: Token) {
    exists k :: since <= k < until <= |acts| && acts[k] == Discard(token)
  }

  ghost predicate TreesWithdrawn(acts: seq<Act>, since: nat, until: nat, made: seq<Tree>, gone: set<nat>) {
    forall id :: id in gone ==> id < |made| && Withdrawn(acts, since, until, made[id].token)
  }

  ghost predicate PendingWithdrawn(
      acts: seq<Act>, since: nat, until: nat, pending: map<nat, F.Pending>, gone: set<nat>) {
    forall a :: a in gone && a in pending ==> Withdrawn(acts, since, until, pending[a].token)
  }

  /**
   * Everything that runs on the attachment or was announced for it is withdrawn; without an attachment, everything
   * is.
   */
  ghost predicate GivenUp(acts: seq<Act>, since: nat, until: nat, f: Forest, attachment: nat)
    requires F.Rooted(f)
  {
    && TreesWithdrawn(acts, since, until, f.made, if attachment == 0 then f.live else F.TreesOf(f, attachment))
    && PendingWithdrawn(acts, since, until, f.pending, if attachment == 0 then f.pending.Keys else {attachment})
  }

  /** The tree leaves, with its spans or without. */
  ghost predicate Leaves(f: Forest, v: Visit) {
    v.id < |f.made| && (v.answer.None? || F.Exports(f, v.id, v.answer))
  }

  ghost predicate VisitOk(b: Bounds, acts: seq<Act>, since: nat, until: nat, f: Forest, v: Visit) {
    && v.id < |f.made| && Asked(b, acts, since, until, f.made[v.id].token, v.answer)
    && (Leaves(f, v) ==> Withdrawn(acts, since, until, f.made[v.id].token))
  }

  ghost predicate Visited(visits: seq<Visit>, id: nat) {
    exists i :: 0 <= i < |visits| && visits[i].id == id
  }

  ghost predicate OncePerTree(visits: seq<Visit>) {
    forall i, j :: 0 <= i < j < |visits| ==> visits[i].id != visits[j].id
  }

  /** The flush asks for each tree that is followed once, and withdraws what leaves. */
  ghost predicate FlushOk(b: Bounds, acts: seq<Act>, since: nat, until: nat, f: Forest, visits: seq<Visit>) {
    && OncePerTree(visits) && (forall id :: id in f.live <==> Visited(visits, id))
    && (forall i :: 0 <= i < |visits| ==> VisitOk(b, acts, since, until, f, visits[i]))
  }

  /** The token that was announced for a start, and that of the tree it belongs to, were asked for. */
  ghost predicate StartOk(c: Config, acts: seq<Act>, since: nat, until: nat, f: Forest, e: Event,
                          announced: Option<Scope>, found: Option<Scope>)
    requires F.Sound(f)
  {
    && (F.TakesPending(f, e) ==> Asked(c.bounds, acts, since, until, f.pending[e.attachment].token, announced))
    && var (g, tree) := F.Opened(f, e, announced.Some?);
       tree.Some? ==>
         && tree.value < |g.made| && Asked(c.bounds, acts, since, until, g.made[tree.value].token, found)
         && (found.None? || |f.frames| >= F.MAX_FRAMES ==> Withdrawn(acts, since, until, g.made[tree.value].token))
  }

  ghost predicate EventOk(c: Config, acts: seq<Act>, since: nat, until: nat, f: Forest, e: Event,
                          announced: Option<Scope>, found: Option<Scope>)
    requires F.Sound(f) && F.Rooted(f)
  {
    if e.kind == Gap then GivenUp(acts, since, until, f, 0)
    else if e.scopeToken != [] then
      e.phase == Finish ==>
        (if e.sequence == 0 || e.correlation == Unmatched
         then Withdrawn(acts, since, until, e.scopeToken) && GivenUp(acts, since, until, f, e.attachment)
         else Asked(c.bounds, acts, since, until, e.scopeToken, found))
    else if e.sequence == 0 then
      e.incomplete && e.kind in {Statement, Procedure, Function, Trigger} ==>
        GivenUp(acts, since, until, f, e.attachment)
    else e.phase == Start ==> StartOk(c, acts, since, until, f, e, announced, found)
  }

  /** An announcement is forgotten exactly when its token is not found. */
  ghost predicate PendingOk(
      b: Bounds, acts: seq<Act>, since: nat, until: nat, pending: map<nat, F.Pending>, forgotten: set<nat>) {
    && forgotten <= pending.Keys
    && forall a :: a in pending ==> exists s ::
         Asked(b, acts, since, until, pending[a].token, s) && (s.None? <==> a in forgotten)
  }

  ghost predicate CauseOk(c: Config, acts: seq<Act>, f: Forest, t: Turn)
    requires F.Sound(f) && F.Rooted(f)
  {
    match t.cause
    case Took(e, announced, found) => EventOk(c, acts, t.since, t.until, f, e, announced, found)
    case Woken => true
    case Second(forgotten) => PendingOk(c.bounds, acts, t.since, t.until, f.pending, forgotten)
    case StreamOver =>
      && TreesWithdrawn(acts, t.since, t.until, f.made, Swept(f, t.visits).live)
      && 0 < t.until <= |acts| && acts[t.until - 1] == End
  }

  /** One turn of the loop takes the forest from `f` to `g`. */
  ghost predicate TurnOk(c: Config, acts: seq<Act>, f: Forest, t: Turn, g: Forest) {
    && F.Sound(f) && F.Rooted(f) && t.since <= t.until <= |acts|
    && g == Turned(c, f, t) && CauseOk(c, acts, f, t)
    && if Flushes(f, t.cause) then FlushOk(c.bounds, acts, t.since, t.until, Read(c, f, t.cause), t.visits)
       else t.visits == []
  }

  // ---- what is sent

  datatype Sending = Sending(tree: Tree, scope: Scope)

  /** What a flush sends, in the order of its visits. */
  function Sent(f: Forest, visits: seq<Visit>): seq<Sending> {
    if visits == [] then [] else
    var v := visits[|visits| - 1];
    Sent(f, visits[..|visits| - 1])
    + if v.id < |f.made| && F.Exports(f, v.id, v.answer) then [Sending(f.made[v.id], v.answer.value)] else []
  }

  function Jobs(exports: seq<Export>): seq<Sending> {
    if exports == [] then [] else
    var x := exports[|exports| - 1];
    Jobs(exports[..|exports| - 1]) + [Sending(x.job.tree, x.job.scope)]
  }

  // ---- whole runs

  function EventsOf(turns: seq<Turn>): seq<Event> {
    if turns == [] then [] else
    var t := turns[|turns| - 1];
    EventsOf(turns[..|turns| - 1]) + if t.cause.Took? then [t.cause.e] else []
  }

  /** A run: the turns of the loop, one after the other, and the forests between them. */
  datatype Run = Run(turns: seq<Turn>, forests: seq<Forest>)

  ghost predicate Steps(c: Config, acts: seq<Act>, r: Run) {
    && |r.forests| == |r.turns| + 1 && r.forests[0] == F.BARE
    && (forall k :: 0 <= k < |r.turns| ==> TurnOk(c, acts, r.forests[k], r.turns[k], r.forests[k + 1]))
    && (forall k :: 0 < k < |r.turns| ==> r.turns[k - 1].until <= r.turns[k].since)
    && (forall k :: 0 <= k <= |r.turns| ==> AllLinked(r.forests[k], EventsOf(r.turns[..k]), c.maxNodes))
  }

  /** What the first `n` turns send. */
  function SentBy(c: Config, r: Run, n: nat): seq<Sending>
    requires n <= |r.turns| < |r.forests|
  {
    if n == 0 then [] else
    var f, t := r.forests[n - 1], r.turns[n - 1];
    SentBy(c, r, n - 1) + if F.Sound(f) && F.Rooted(f) then Sent(Read(c, f, t.cause), t.visits) else []
  }

  /**
   * The run explains everything: the events read are those of its turns, the forest is where it ends, and the exports
   * are what its flushes send, one for one.
   */
  ghost predicate Explains(c: Config, acts: seq<Act>, r: Run, consumed: seq<Event>, now: Forest, exports: seq<Export>) {
    && Steps(c, acts, r) && EventsOf(r.turns) == consumed && r.forests[|r.turns|] == now
    && Jobs(exports) == SentBy(c, r, |r.turns|)
    && (r.turns != [] ==> r.turns[|r.turns| - 1].until <= |acts|)
  }

  // ---- a longer stretch of critical sections

  lemma AskedLonger(
      b: Bounds, acts: seq<Act>, since: nat, until: nat, token: Token, answer: Option<Scope>, more: seq<Act>,
      first: nat, last: nat)
    requires Asked(b, acts, since, until, token, answer) && acts <= more && first <= since && until <= last
    ensures Asked(b, more, first, last, token, answer)
  {
    hide After, Found;
    var at :| since <= at < until && AnsweredAt(b, acts, at, token, answer);
    assert acts[..at] == more[..at];
    assert AnsweredAt(b, more, at, token, answer);
  }

  lemma WithdrawnLonger(
      acts: seq<Act>, since: nat, until: nat, token: Token, more: seq<Act>, first: nat, last: nat)
    requires Withdrawn(acts, since, until, token) && acts <= more && first <= since && until <= last <= |more|
    ensures Withdrawn(more, first, last, token)
  {
  }

  lemma TreesWithdrawnLonger(
      acts: seq<Act>, since: nat, until: nat, made: seq<Tree>, gone: set<nat>, more: seq<Act>, first: nat, last: nat)
    requires TreesWithdrawn(acts, since, until, made, gone) && acts <= more && first <= since && until <= last <= |more|
    ensures TreesWithdrawn(more, first, last, made, gone)
  {
    hide Withdrawn;
    forall id | id in gone ensures id < |made| && Withdrawn(more, first, last, made[id].token) {
      WithdrawnLonger(acts, since, until, made[id].token, more, first, last);
    }
  }

  lemma PendingWithdrawnLonger(
      acts: seq<Act>, since: nat, until: nat, pending: map<nat, F.Pending>, gone: set<nat>, more: seq<Act>, first: nat,
      last: nat)
    requires PendingWithdrawn(acts, since, until, pending, gone) && acts <= more && first <= since
    requires until <= last <= |more|
    ensures PendingWithdrawn(more, first, last, pending, gone)
  {
    hide Withdrawn;
    forall a | a in gone && a in pending ensures Withdrawn(more, first, last, pending[a].token) {
      WithdrawnLonger(acts, since, until, pending[a].token, more, first, last);
    }
  }

  lemma GivenUpLonger(
      acts: seq<Act>, since: nat, until: nat, f: Forest, attachment: nat, more: seq<Act>, first: nat, last: nat)
    requires F.Rooted(f) && GivenUp(acts, since, until, f, attachment)
    requires acts <= more && first <= since && until <= last <= |more|
    ensures GivenUp(more, first, last, f, attachment)
  {
    hide F.Rooted, F.TreesOf, TreesWithdrawn, PendingWithdrawn;
    TreesWithdrawnLonger(
      acts, since, until, f.made, if attachment == 0 then f.live else F.TreesOf(f, attachment), more, first, last);
    PendingWithdrawnLonger(
      acts, since, until, f.pending, if attachment == 0 then f.pending.Keys else {attachment}, more, first, last);
  }

  lemma VisitLonger(
      b: Bounds, acts: seq<Act>, since: nat, until: nat, f: Forest, v: Visit, more: seq<Act>, first: nat, last: nat)
    requires VisitOk(b, acts, since, until, f, v) && acts <= more && first <= since && until <= last <= |more|
    ensures VisitOk(b, more, first, last, f, v)
  {
    hide Asked, Withdrawn, Leaves;
    AskedLonger(b, acts, since, until, f.made[v.id].token, v.answer, more, first, last);
    if Leaves(f, v) {
      WithdrawnLonger(acts, since, until, f.made[v.id].token, more, first, last);
    }
  }

  lemma FlushLonger(
      b: Bounds, acts: seq<Act>, since: nat, until: nat, f: Forest, visits: seq<Visit>, more: seq<Act>, first: nat,
      last: nat)
    requires FlushOk(b, acts, since, until, f, visits) && acts <= more && first <= since && until <= last <= |more|
    ensures FlushOk(b, more, first, last, f, visits)
  {
    hide VisitOk;
    forall i | 0 <= i < |visits| ensures VisitOk(b, more, first, last, f, visits[i]) {
      VisitLonger(b, acts, since, until, f, visits[i], more, first, last);
    }
  }

  lemma PendingLonger(
      b: Bounds, acts: seq<Act>, since: nat, until: nat, pending: map<nat, F.Pending>, forgotten: set<nat>,
      more: seq<Act>)
    requires PendingOk(b, acts, since, until, pending, forgotten) && acts <= more
    ensures PendingOk(b, more, since, until, pending, forgotten)
  {
    hide Asked;
    forall a | a in pending ensures exists s ::
      Asked(b, more, since, until, pending[a].token, s) && (s.None? <==> a in forgotten)
    {
      var s :| Asked(b, acts, since, until, pending[a].token, s) && (s.None? <==> a in forgotten);
      AskedLonger(b, acts, since, until, pending[a].token, s, more, since, until);
    }
  }

  lemma StartLonger(
      c: Config, acts: seq<Act>, since: nat, until: nat, f: Forest, e: Event, announced: Option<Scope>,
      found: Option<Scope>,
      more: seq<Act>)
    requires F.Sound(f) && StartOk(c, acts, since, until, f, e, announced, found) && acts <= more && until <= |more|
    ensures StartOk(c, more, since, until, f, e, announced, found)
  {
    hide Asked, Withdrawn, F.Opened;
    var (g, tree) := F.Opened(f, e, announced.Some?);
    if F.TakesPending(f, e) {
      AskedLonger(c.bounds, acts, since, until, f.pending[e.attachment].token, announced, more, since, until);
    }
    if tree.Some? {
      AskedLonger(c.bounds, acts, since, until, g.made[tree.value].token, found, more, since, until);
      if Withdrawn(acts, since, until, g.made[tree.value].token) {
        WithdrawnLonger(acts, since, until, g.made[tree.value].token, more, since, until);
      }
    }
  }

  lemma EventLonger(
      c: Config, acts: seq<Act>, since: nat, until: nat, f: Forest, e: Event, announced: Option<Scope>,
      found: Option<Scope>,
      more: seq<Act>)
    requires F.Sound(f) && F.Rooted(f) && EventOk(c, acts, since, until, f, e, announced, found) && acts <= more
    requires until <= |more|
    ensures EventOk(c, more, since, until, f, e, announced, found)
  {
    hide Asked, Withdrawn, GivenUp, StartOk, F.Sound, F.Rooted;
    if GivenUp(acts, since, until, f, 0) {
      GivenUpLonger(acts, since, until, f, 0, more, since, until);
    }
    if GivenUp(acts, since, until, f, e.attachment) {
      GivenUpLonger(acts, since, until, f, e.attachment, more, since, until);
    }
    if Withdrawn(acts, since, until, e.scopeToken) {
      WithdrawnLonger(acts, since, until, e.scopeToken, more, since, until);
    }
    if Asked(c.bounds, acts, since, until, e.scopeToken, found) {
      AskedLonger(c.bounds, acts, since, until, e.scopeToken, found, more, since, until);
    }
    if StartOk(c, acts, since, until, f, e, announced, found) {
      StartLonger(c, acts, since, until, f, e, announced, found, more);
    }
  }

  lemma TurnLonger(c: Config, acts: seq<Act>, f: Forest, t: Turn, g: Forest, more: seq<Act>)
    requires TurnOk(c, acts, f, t, g) && acts <= more
    ensures TurnOk(c, more, f, t, g)
  {
    hide F.Sound, F.Rooted, EventOk, PendingOk, FlushOk, TreesWithdrawn, Turned, Read, Flushes, Swept;
    match t.cause {
      case Took(e, announced, found) => EventLonger(c, acts, t.since, t.until, f, e, announced, found, more);
      case Woken =>
      case Second(forgotten) => PendingLonger(c.bounds, acts, t.since, t.until, f.pending, forgotten, more);
      case StreamOver =>
        TreesWithdrawnLonger(acts, t.since, t.until, f.made, Swept(f, t.visits).live, more, t.since, t.until);
    }
    if Flushes(f, t.cause) {
      FlushLonger(c.bounds, acts, t.since, t.until, Read(c, f, t.cause), t.visits, more, t.since, t.until);
    }
  }

  lemma StepsLonger(c: Config, acts: seq<Act>, r: Run, more: seq<Act>)
    requires Steps(c, acts, r) && acts <= more
    ensures Steps(c, more, r)
  {
    hide TurnOk, AllLinked, EventsOf;
    forall k | 0 <= k < |r.turns| ensures TurnOk(c, more, r.forests[k], r.turns[k], r.forests[k + 1]) {
      TurnLonger(c, acts, r.forests[k], r.turns[k], r.forests[k + 1], more);
    }
  }

  // ---- one more turn

  function With(r: Run, t: Turn, g: Forest): Run {
    Run(r.turns + [t], r.forests + [g])
  }

  lemma {:induction false} SentByWith(c: Config, r: Run, t: Turn, g: Forest, n: nat)
    requires n <= |r.turns| < |r.forests|
    ensures SentBy(c, With(r, t, g), n) == SentBy(c, r, n)
  {
    hide F.Sound, F.Rooted, Sent, Read;
    if n > 0 {
      SentByWith(c, r, t, g, n - 1);
    }
  }

  lemma JobsAppend(exports: seq<Export>, x: Export)
    ensures Jobs(exports + [x]) == Jobs(exports) + [Sending(x.job.tree, x.job.scope)]
  {
    assert (exports + [x])[..|exports|] == exports;
  }

  lemma SentAppend(f: Forest, visits: seq<Visit>, v: Visit)
    ensures Sent(f, visits + [v])
      == Sent(f, visits)
         + if v.id < |f.made| && F.Exports(f, v.id, v.answer) then [Sending(f.made[v.id], v.answer.value)] else []
  {
    assert (visits + [v])[..|visits|] == visits;
  }

  lemma SweptAppend(f: Forest, visits: seq<Visit>, v: Visit)
    ensures var g := Swept(f, visits);
      Swept(f, visits + [v]) == if v.id < |g.made| then F.Flushed(g, v.id, v.answer) else g
  {
    hide F.Flushed;
    assert (visits + [v])[..|visits|] == visits;
  }

  lemma StepsWith(c: Config, acts: seq<Act>, r: Run, t: Turn, g: Forest)
    requires Steps(c, acts, r) && TurnOk(c, acts, r.forests[|r.turns|], t, g)
    requires r.turns != [] ==> r.turns[|r.turns| - 1].until <= t.since
    requires AllLinked(g, EventsOf(r.turns + [t]), c.maxNodes)
    ensures Steps(c, acts, With(r, t, g))
  {
    hide TurnOk, AllLinked, EventsOf;
    var q := With(r, t, g);
    forall k | 0 <= k <= |q.turns| ensures AllLinked(q.forests[k], EventsOf(q.turns[..k]), c.maxNodes) {
      if k <= |r.turns| {
        assert q.turns[..k] == r.turns[..k];
      } else {
        assert q.turns[..k] == r.turns + [t];
      }
    }
  }

  /** A turn that took the forest to where it is now, and whose flush was recorded. */
  lemma TurnExplained(
      c: Config, before: seq<Act>, acts: seq<Act>, r: Run, consumed: seq<Event>, f: Forest, exports: seq<Export>,
      t: Turn, g: Forest, read: seq<Event>, sent: seq<Export>)
    requires Explains(c, before, r, consumed, f, exports) && before <= acts && t.since == |before| && t.until == |acts|
    requires TurnOk(c, acts, f, t, g) && read == consumed + (if t.cause.Took? then [t.cause.e] else [])
    requires AllLinked(g, read, c.maxNodes)
    requires Jobs(sent) == Jobs(exports) + Sent(Read(c, f, t.cause), t.visits)
    ensures Explains(c, acts, With(r, t, g), read, g, sent)
  {
    hide *;
    ExplainedSteps(c, before, r, consumed, f, exports);
    StepsLonger(c, before, r, acts);
    EventsAppend(r.turns, t);
    StepsWith(c, acts, r, t, g);
    SentWith(c, acts, r, f, t, g);
    WithExplains(c, acts, r, t, g, read, sent);
  }

  lemma ExplainedSteps(c: Config, acts: seq<Act>, r: Run, consumed: seq<Event>, f: Forest, exports: seq<Export>)
    requires Explains(c, acts, r, consumed, f, exports)
    ensures Steps(c, acts, r) && |r.forests| == |r.turns| + 1 && r.forests[|r.turns|] == f
    ensures EventsOf(r.turns) == consumed
    ensures Jobs(exports) == SentBy(c, r, |r.turns|)
    ensures r.turns != [] ==> r.turns[|r.turns| - 1].until <= |acts|
  {
    hide TurnOk, AllLinked, SentBy, EventsOf, Jobs;
  }

  lemma EventsAppend(turns: seq<Turn>, t: Turn)
    ensures EventsOf(turns + [t]) == EventsOf(turns) + if t.cause.Took? then [t.cause.e] else []
  {
    assert (turns + [t])[..|turns|] == turns;
  }

  lemma SentWith(c: Config, acts: seq<Act>, r: Run, f: Forest, t: Turn, g: Forest)
    requires |r.forests| == |r.turns| + 1 && r.forests[|r.turns|] == f && TurnOk(c, acts, f, t, g)
    ensures F.Sound(f) && F.Rooted(f)
    ensures SentBy(c, With(r, t, g), |r.turns| + 1) == SentBy(c, r, |r.turns|) + Sent(Read(c, f, t.cause), t.visits)
  {
    hide F.Sound, F.Rooted, Sent, Read, Turned, CauseOk, Flushes, FlushOk;
    SentByWith(c, r, t, g, |r.turns|);
  }

  lemma WithExplains(
      c: Config, acts: seq<Act>, r: Run, t: Turn, g: Forest, read: seq<Event>, sent: seq<Export>)
    requires |r.forests| == |r.turns| + 1 && Steps(c, acts, With(r, t, g)) && EventsOf(r.turns + [t]) == read
    requires Jobs(sent) == SentBy(c, With(r, t, g), |r.turns| + 1) && t.until <= |acts|
    ensures Explains(c, acts, With(r, t, g), read, g, sent)
  {
    hide Steps, SentBy, EventsOf, Jobs;
  }

  lemma BareExplained(c: Config)
    requires c.maxNodes > 0
    ensures Explains(c, [], Run([], [F.BARE]), [], F.BARE, [])
  {
  }

  // ---- what a flush does

  lemma {:induction false} SweptFields(f: Forest, visits: seq<Visit>)
    ensures var g := Swept(f, visits);
      g.made == f.made && g.pending == f.pending && g.active == f.active && g.counts == f.counts && g.live <= f.live
  {
    if visits != [] {
      SweptFields(f, visits[..|visits| - 1]);
    }
  }

  ghost predicate LeftBy(f: Forest, visits: seq<Visit>, id: nat) {
    exists i :: 0 <= i < |visits| && visits[i].id == id && Leaves(f, visits[i])
  }

  lemma {:induction false} SweptLive(f: Forest, visits: seq<Visit>, id: nat)
    ensures id in Swept(f, visits).live <==> id in f.live && !LeftBy(f, visits, id)
  {
    if visits != [] {
      var n := |visits| - 1;
      var some, v := visits[..n], visits[n];
      SweptLive(f, some, id);
      SweptFields(f, some);
      hide Swept;
      if LeftBy(f, some, id) {
        var i :| 0 <= i < |some| && some[i].id == id && Leaves(f, some[i]);
        assert visits[i] == some[i];
      }
      SweptAppend(f, some, v);
      assert some + [v] == visits;
    }
  }

  /** After a flush no tree is left that was complete and bound when the flush asked for it, nor one without a scope. */
  lemma FlushLeavesNothingBound(
      b: Bounds, acts: seq<Act>, since: nat, until: nat, f: Forest, visits: seq<Visit>, i: nat)
    requires FlushOk(b, acts, since, until, f, visits) && i < |visits|
    ensures var v := visits[i];
      && v.id in f.live && v.id < |f.made|
      && (v.id in Swept(f, visits).live <==>
          v.answer.Some? && !(f.made[v.id].complete && v.answer.value.parent.valid))
  {
    hide Asked, Withdrawn;
    var v := visits[i];
    assert Visited(visits, v.id);
    SweptLive(f, visits, v.id);
    assert VisitOk(b, acts, since, until, f, v);
    if LeftBy(f, visits, v.id) {
      var j :| 0 <= j < |visits| && visits[j].id == v.id && Leaves(f, visits[j]);
      assert j == i;
    }
  }

  /** What a flush sends: one tree for each visit that found it complete and bound. */
  lemma {:induction false} FlushSends(f: Forest, visits: seq<Visit>, s: Sending)
    ensures s in Sent(f, visits) <==> exists i :: 0 <= i < |visits| && SendsAs(f, visits[i], s)
  {
    if visits != [] {
      var n := |visits| - 1;
      FlushSends(f, visits[..n], s);
      hide SendsAs;
      SentAppend(f, visits[..n], visits[n]);
      assert visits[..n] + [visits[n]] == visits;
      LastSends(f, visits[n], s);
      if s in Sent(f, visits[..n]) {
        var i :| 0 <= i < n && SendsAs(f, visits[..n][i], s);
        assert visits[i] == visits[..n][i];
      }
      if i :| 0 <= i < n && SendsAs(f, visits[i], s) {
        assert SendsAs(f, visits[..n][i], s);
      }
    }
  }

  ghost predicate SendsAs(f: Forest, v: Visit, s: Sending) {
    v.id < |f.made| && v.answer.Some? && v.answer.value.parent.valid && f.made[v.id].complete
    && s == Sending(f.made[v.id], v.answer.value)
  }

  lemma LastSends(f: Forest, v: Visit, s: Sending)
    ensures SendsAs(f, v, s)
      <==> v.id < |f.made| && F.Exports(f, v.id, v.answer) && s == Sending(f.made[v.id], v.answer.value)
  {
  }

  // ---- no tree is lost

  lemma OpenedKeeps(f: Forest, e: Event, announced: bool)
    ensures var (g, tree) := F.Opened(f, e, announced); f.made <= g.made && f.live <= g.live && g.frames == f.frames
    ensures F.Sound(f) && F.Opened(f, e, announced).1.Some? ==>
      F.Opened(f, e, announced).1.value < |F.Opened(f, e, announced).0.made|
  {
  }

  lemma ActivatedKeeps(f: Forest, e: Event)
    ensures var g := F.Activated(f, e); g.made == f.made && g.live == f.live && g.frames == f.frames
  {
  }

  lemma JoinedTokens(f: Forest, id: nat, e: Event, found: bool, maxNodes: nat)
    requires id < |f.made|
    ensures var g := F.Joined(f, id, e, found, maxNodes);
      |g.made| == |f.made| && (forall i :: 0 <= i < |f.made| ==> g.made[i].token == f.made[i].token)
      && g.live == if !found || |f.frames| >= F.MAX_FRAMES then f.live - {id} else f.live
  {
  }

  lemma StartTokens(c: Config, f: Forest, e: Event, announced: bool, found: bool, id: nat)
    requires F.Sound(f) && id < |f.made|
    ensures var g := F.Started(f, e, announced, found, c.maxNodes);
      id < |g.made| && g.made[id].token == f.made[id].token
  {
    hide F.Sound, F.Opened, F.Activated, F.Joined;
    OpenedKeeps(f, e, announced);
    var (g, tree) := F.Opened(f, e, announced);
    ActivatedKeeps(g, e);
    if tree.Some? {
      JoinedTokens(F.Activated(g, e), tree.value, e, found, c.maxNodes);
    }
  }

  lemma StartDrops(c: Config, f: Forest, e: Event, announced: bool, found: bool, id: nat)
    requires F.Sound(f) && id in f.live && id < |f.made| && id !in F.Started(f, e, announced, found, c.maxNodes).live
    ensures var (g, tree) := F.Opened(f, e, announced);
      && tree == Some(id) && (!found || |f.frames| >= F.MAX_FRAMES)
      && id < |g.made| && g.made[id].token == f.made[id].token
  {
    hide F.Sound, F.Opened, F.Activated, F.Joined;
    OpenedKeeps(f, e, announced);
    var (g, tree) := F.Opened(f, e, announced);
    ActivatedKeeps(g, e);
    if tree.Some? {
      JoinedTokens(F.Activated(g, e), tree.value, e, found, c.maxNodes);
    }
  }

  lemma FinishTokens(f: Forest, e: Event, id: nat)
    requires F.Sound(f) && id < |f.made|
    ensures var g := F.Finished(f, e); g.live == f.live && id < |g.made| && g.made[id].token == f.made[id].token
  {
    hide F.Deactivated;
    DeactivatedFields(f, e.sequence);
  }

  lemma ClearTokens(f: Forest, attachment: nat)
    requires F.Rooted(f)
    ensures F.Cleared(f).made == f.made && F.ClearedAttachment(f, attachment).made == f.made
  {
    hide F.Rooted;
  }

  lemma ReadTokens(c: Config, f: Forest, cause: Cause, id: nat)
    requires F.Sound(f) && F.Rooted(f) && id < |f.made|
    ensures var g := Read(c, f, cause); id < |g.made| && g.made[id].token == f.made[id].token
  {
    hide F.Sound, F.Rooted, F.Started, F.Finished, F.Cleared, F.ClearedAttachment;
    if cause.Took? {
      StartTokens(c, f, cause.e, cause.announced.Some?, cause.found.Some?, id);
      FinishTokens(f, cause.e, id);
      ClearTokens(f, cause.e.attachment);
    }
  }

  /** An event loses a tree only by withdrawing its token. */
  lemma ReadLoses(c: Config, acts: seq<Act>, f: Forest, t: Turn, id: nat)
    requires F.Sound(f) && F.Rooted(f) && CauseOk(c, acts, f, t)
    requires id in f.live && id < |f.made| && id !in Read(c, f, t.cause).live
    ensures Withdrawn(acts, t.since, t.until, f.made[id].token)
  {
    hide Asked, Withdrawn, F.Sound, F.Started, F.Rooted;
    var e := t.cause.e;
    if e.kind != Gap && e.scopeToken == [] && e.sequence > 0 {
      if e.phase == Start {
        StartDrops(c, f, e, t.cause.announced.Some?, t.cause.found.Some?, id);
      } else {
        FinishTokens(f, e, id);
      }
    }
  }

  /** Over one turn: a tree is followed on, or its token is withdrawn. */
  lemma NoTreeIsLost(c: Config, acts: seq<Act>, f: Forest, t: Turn, g: Forest, id: nat)
    requires TurnOk(c, acts, f, t, g) && id in f.live && id !in g.live
    ensures id < |f.made| && Withdrawn(acts, t.since, t.until, f.made[id].token)
  {
    assert id < |f.made|;
    hide Withdrawn, F.Sound, F.Rooted, EventOk, PendingOk, Flushes, Read;
    var r := Read(c, f, t.cause);
    ReadTokens(c, f, t.cause, id);
    if id !in r.live {
      ReadLoses(c, acts, f, t, id);
    } else if id !in Swept(r, t.visits).live {
      FlushLoses(c.bounds, acts, t.since, t.until, r, t.visits, id);
    } else {
      StreamLoses(c, acts, f, t, id);
    }
  }

  lemma FlushLoses(b: Bounds, acts: seq<Act>, since: nat, until: nat, f: Forest, visits: seq<Visit>, id: nat)
    requires visits == [] || FlushOk(b, acts, since, until, f, visits)
    requires id in f.live && id !in Swept(f, visits).live && id < |f.made|
    ensures Withdrawn(acts, since, until, f.made[id].token)
  {
    hide Withdrawn, Asked;
    SweptLive(f, visits, id);
    var i :| 0 <= i < |visits| && visits[i].id == id && Leaves(f, visits[i]);
    assert VisitOk(b, acts, since, until, f, visits[i]);
  }

  lemma StreamLoses(c: Config, acts: seq<Act>, f: Forest, t: Turn, id: nat)
    requires F.Sound(f) && F.Rooted(f) && CauseOk(c, acts, f, t)
    requires id in Swept(Read(c, f, t.cause), t.visits).live && id !in Turned(c, f, t).live
    ensures id < |f.made| && Withdrawn(acts, t.since, t.until, f.made[id].token)
  {
    hide Withdrawn, F.Sound, F.Rooted, Swept, Consumed, EventOk, PendingOk;
  }

  // ---- whole runs: exported is what was complete and bound

  /** Visit `i` of turn `k` found its tree complete and bound. */
  ghost predicate SendsIn(c: Config, r: Run, k: nat, i: nat, s: Sending)
    requires k < |r.turns| < |r.forests|
  {
    && F.Sound(r.forests[k]) && F.Rooted(r.forests[k]) && i < |r.turns[k].visits|
    && SendsAs(Read(c, r.forests[k], r.turns[k].cause), r.turns[k].visits[i], s)
  }

  ghost predicate SentIn(c: Config, r: Run, k: nat, s: Sending)
    requires k < |r.turns| < |r.forests|
  {
    exists i: nat :: SendsIn(c, r, k, i, s)
  }

  lemma {:induction false} SentByIsSent(c: Config, r: Run, n: nat, s: Sending)
    requires n <= |r.turns| < |r.forests|
    ensures s in SentBy(c, r, n) <==> exists k: nat :: k < n && SentIn(c, r, k, s)
  {
    hide F.Sound, F.Rooted, Sent, Read, SentIn;
    if n > 0 {
      SentByIsSent(c, r, n - 1, s);
      SentInTurn(c, r, n - 1, s);
    }
  }

  lemma SentInTurn(c: Config, r: Run, k: nat, s: Sending)
    requires k < |r.turns| < |r.forests|
    ensures var f, t := r.forests[k], r.turns[k];
      s in (if F.Sound(f) && F.Rooted(f) then Sent(Read(c, f, t.cause), t.visits) else [])
      <==> SentIn(c, r, k, s)
  {
    var f, t := r.forests[k], r.turns[k];
    hide F.Sound, F.Rooted, SendsAs, Sent, Read;
    if F.Sound(f) && F.Rooted(f) {
      FlushSends(Read(c, f, t.cause), t.visits, s);
      if i :| 0 <= i < |t.visits| && SendsAs(Read(c, f, t.cause), t.visits[i], s) {
        assert SendsIn(c, r, k, i, s);
      }
    }
  }

  /**
   * Over a whole run, what has been exported is exactly what some flush asked for and found complete and bound: nothing
   * that could go was kept back, and nothing else went.
   */
  lemma ExportedExactlyWhenBound(
      c: Config, acts: seq<Act>, r: Run, consumed: seq<Event>, now: Forest, exports: seq<Export>, s: Sending)
    requires Explains(c, acts, r, consumed, now, exports)
    ensures s in Jobs(exports) <==> exists k: nat :: k < |r.turns| && SentIn(c, r, k, s)
  {
    hide SentIn, TurnOk, AllLinked, Jobs, SentBy, EventsOf;
    SentByIsSent(c, r, |r.turns|, s);
  }
}
