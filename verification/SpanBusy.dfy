/**
 * The count of running executions over a whole run, and what a finish that looks like a marker query does to it: the
 * execution is never taken off the count, so its attachment stays busy (trace/spans.go, consume).
 */
module SpanBusy {
  import opened TraceEvents
  import opened TracePairing
  import opened SpanFamily
  import opened SpanLinks
  import opened SpanMachine
  import opened SpanTally
  import F = SpanForest
  import Leaks = SpanLeaks
  import R = SpanRegistry
  import SpanDelivery

  // ---- the counts, over a run

  ghost predicate Counted(c: Config, f: Forest, h: seq<Event>) {
    Tally(f, |Starts(h)|, c.bounds.maxPending)
  }

  lemma TallyOfFields(f: Forest, g: Forest, started: nat, maxPending: nat)
    requires Tally(f, started, maxPending) && g.active == f.active && g.counts == f.counts
    requires |g.frames| <= |f.frames| && |g.pending| <= |f.pending|
    ensures Tally(g, started, maxPending)
  {
    hide CountsOk, Known;
  }

  lemma TallyLater(f: Forest, started: nat, later: nat, maxPending: nat)
    requires Tally(f, started, maxPending) && started <= later
    ensures Tally(f, later, maxPending)
  {
    hide CountsOk;
  }

  lemma StartsLater(h: seq<Event>, e: Event)
    ensures |Starts(h)| <= |Starts(h + [e])|
    ensures History(h + [e]) && Collects(e) ==> |Starts(h + [e])| == |Starts(h)| + 1 == e.sequence
  {
    hide History;
    StartsAppend(h, e);
    if History(h + [e]) && Collects(e) {
      NewestStart(h, e);
    }
  }

  lemma ReadCounted(c: Config, f: Forest, h: seq<Event>, e: Event, announced: bool, found: bool)
    requires Counted(c, f, h) && F.Sound(f) && F.Rooted(f) && History(h + [e])
    ensures Counted(c, Consumed(c, f, e, announced, found), h + [e])
  {
    hide History, Tally, Starts, F.Sound, F.Rooted, F.Started, F.Finished, F.Cleared, F.ClearedAttachment, F.Announced;
    var n, max := |Starts(h)|, c.bounds.maxPending;
    Leaks.EventPhase(h, e);
    StartsLater(h, e);
    if e.kind != Gap && e.scopeToken == [] && e.sequence > 0 {
      if e.phase == Phase.Start {
        StartedTally(f, e, announced, found, c.maxNodes, n, max);
      } else {
        FinishedTally(f, e, n, max);
        TallyLater(F.Finished(f, e), n, |Starts(h + [e])|, max);
      }
    } else {
      ClearedTally(f, n, max);
      ClearedAttachmentTally(f, e.attachment, n, max);
      AnnouncedTally(f, e, found, c.clock(e.timestamp), n, max);
      TallyLater(Consumed(c, f, e, announced, found), n, |Starts(h + [e])|, max);
    }
  }

  lemma {:induction false} SweptTally(f: Forest, visits: seq<Visit>, started: nat, maxPending: nat)
    requires Tally(f, started, maxPending)
    ensures Tally(Swept(f, visits), started, maxPending)
  {
    hide Tally, F.Flushed;
    if visits != [] {
      var n := |visits| - 1;
      SweptTally(f, visits[..n], started, maxPending);
      var g := Swept(f, visits[..n]);
      if visits[n].id < |g.made| {
        FlushedTally(g, visits[n].id, visits[n].answer, started, maxPending);
      }
    }
  }

  lemma TurnCounted(c: Config, acts: seq<R.Act>, f: Forest, t: Turn, g: Forest, h: seq<Event>)
    requires TurnOk(c, acts, f, t, g) && Counted(c, f, h) && (t.cause.Took? ==> History(h + [t.cause.e]))
    ensures Counted(c, g, if t.cause.Took? then h + [t.cause.e] else h)
  {
    hide Tally, History, Starts, F.Sound, F.Rooted, CauseOk, Consumed, Swept, Flushes, FlushOk, F.Without;
    var r, read := Read(c, f, t.cause), if t.cause.Took? then h + [t.cause.e] else h;
    var n, max := |Starts(read)|, c.bounds.maxPending;
    if t.cause.Took? {
      ReadCounted(c, f, h, t.cause.e, t.cause.announced.Some?, t.cause.found.Some?);
    }
    SweptTally(r, t.visits, n, max);
    var s := Swept(r, t.visits);
    WithoutTally(s, s.live, n, max);
    if t.cause.Second? {
      FewerKeys(s.pending - t.cause.forgotten, s.pending);
      TallyOfFields(s, g, n, max);
    }
  }

  /** Over every run: counts are exact and no count is zero, and frames and announcements keep their bounds. */
  lemma {:induction false} RunIsCounted(c: Config, acts: seq<R.Act>, r: Run, k: nat)
    requires Steps(c, acts, r) && History(EventsOf(r.turns)) && k <= |r.turns|
    ensures |r.forests| == |r.turns| + 1 && Counted(c, r.forests[k], EventsOf(r.turns[..k]))
  {
    hide TurnOk, AllLinked, EventsOf, History, Counted;
    if k == 0 {
      BareCounted(c);
      assert r.turns[..0] == [];
    } else {
      RunIsCounted(c, acts, r, k - 1);
      var t := r.turns[k - 1];
      Leaks.RunHistory(r.turns, k - 1);
      TurnCounted(c, acts, r.forests[k - 1], t, r.forests[k], EventsOf(r.turns[..k - 1]));
      assert r.turns[..k] == r.turns[..k - 1] + [t];
      EventsAppend(r.turns[..k - 1], t);
      assert EventsOf(r.turns[..k - 1]) + [] == EventsOf(r.turns[..k - 1]);
    }
  }

  lemma BareCounted(c: Config)
    ensures Counted(c, F.BARE, EventsOf([]))
  {
    BareTally(c.bounds.maxPending);
  }

  // ---- an execution that is never taken off

  /** Execution `n` counts as running on the attachment. */
  predicate Runs(f: Forest, n: nat, attachment: nat) {
    n in f.active && f.active[n] == attachment
  }

  lemma BusyTakesNothing(f: Forest, started: nat, maxPending: nat, n: nat, attachment: nat, e: Event)
    requires Tally(f, started, maxPending) && Runs(f, n, attachment) && e.attachment == attachment
    ensures !F.TakesPending(f, e)
  {
    hide Known;
    assert CountOk(f.active, f.counts, attachment);
    assert n in Running(f.active, attachment);
  }

  lemma ReadRuns(c: Config, f: Forest, e: Event, announced: bool, found: bool, n: nat, attachment: nat)
    requires F.Sound(f) && F.Rooted(f) && Runs(f, n, attachment) && !SpanDelivery.GivesUp(e, attachment)
    requires Ends(e) ==> e.sequence != n
    requires Collects(e) ==> e.sequence != n
    requires PhaseOk(e)
    ensures Runs(Consumed(c, f, e, announced, found), n, attachment)
  {
    hide F.Sound, F.Rooted, F.Started, F.Finished;
    if e.kind != Gap && e.scopeToken == [] && e.sequence > 0 {
      if e.phase == Phase.Start {
        StartRuns(f, e, announced, found, c.maxNodes, n, attachment);
      } else {
        FinishRuns(f, e, n, attachment);
      }
    }
  }

  lemma StartRuns(f: Forest, e: Event, announced: bool, found: bool, maxNodes: nat, n: nat, attachment: nat)
    requires F.Sound(f) && Runs(f, n, attachment) && e.sequence != n
    ensures Runs(F.Started(f, e, announced, found, maxNodes), n, attachment)
  {
    hide *;
    TreeIsMade(f, e, announced);
    OpenedActive(f, e, announced);
    var (g, tree) := F.Opened(f, e, announced);
    ActivatedRuns(g, e, n, attachment);
    StartedActive(f, e, announced, found, maxNodes);
    SameRuns(f, g, n, attachment);
    SameRuns(F.Activated(g, e), F.Started(f, e, announced, found, maxNodes), n, attachment);
  }

  lemma SameRuns(f: Forest, g: Forest, n: nat, attachment: nat)
    requires f.active == g.active
    ensures Runs(f, n, attachment) <==> Runs(g, n, attachment)
  {
  }

  lemma OpenedActive(f: Forest, e: Event, announced: bool)
    ensures F.Opened(f, e, announced).0.active == f.active
  {
    hide F.TakesPending, F.Owner;
  }

  lemma ActivatedRuns(f: Forest, e: Event, n: nat, attachment: nat)
    requires e.sequence != n
    ensures Runs(f, n, attachment) ==> Runs(F.Activated(f, e), n, attachment)
  {
  }

  /** Joining a tree is no concern of the counts. */
  lemma StartedActive(f: Forest, e: Event, announced: bool, found: bool, maxNodes: nat)
    requires F.Sound(f)
    ensures F.Started(f, e, announced, found, maxNodes).active == F.Activated(F.Opened(f, e, announced).0, e).active
  {
    hide F.Sound, F.Opened, F.Activated, F.FramesWithout;
    TreeIsMade(f, e, announced);
  }

  lemma FinishRuns(f: Forest, e: Event, n: nat, attachment: nat)
    requires F.Sound(f) && Runs(f, n, attachment) && e.sequence != n
    ensures Runs(F.Finished(f, e), n, attachment)
  {
    FinishedFields(f, e);
    hide F.Sound, F.Finished, F.Count;
  }

  lemma TurnRuns(c: Config, acts: seq<R.Act>, f: Forest, t: Turn, g: Forest, h: seq<Event>, n: nat, attachment: nat)
    requires TurnOk(c, acts, f, t, g) && Runs(f, n, attachment) && Over(h, n) && 0 < n <= |Starts(h)|
    requires t.cause.Took? ==> History(h + [t.cause.e]) && !SpanDelivery.GivesUp(t.cause.e, attachment)
    ensures Runs(g, n, attachment)
  {
    hide History, Starts, F.Sound, F.Rooted, CauseOk, Consumed, Swept, Flushes, FlushOk, Over, SpanDelivery.GivesUp;
    var r := Read(c, f, t.cause);
    if t.cause.Took? {
      OverIsOver(h, t.cause.e, n);
      Leaks.EventPhase(h, t.cause.e);
      ReadRuns(c, f, t.cause.e, t.cause.announced.Some?, t.cause.found.Some?, n, attachment);
    }
    SweptFields(r, t.visits);
  }

  /** The finish of number `n` was read. */
  ghost predicate Over(h: seq<Event>, n: nat) {
    exists j :: 0 <= j < |h| && h[j].PairedFinish() && h[j].sequence == n
  }

  lemma OverIsOver(h: seq<Event>, e: Event, n: nat)
    requires History(h + [e]) && Over(h, n) && 0 < n <= |Starts(h)|
    ensures Ends(e) ==> e.sequence != n
    ensures Collects(e) ==> e.sequence != n
  {
    hide Numbered, FinishesMatch, AlwaysNested, ParentsOpen, Phased, Starts;
    var g := h + [e];
    var j :| 0 <= j < |h| && h[j].PairedFinish() && h[j].sequence == n;
    assert g[j] == h[j] && g[|h|] == e;
    if Collects(e) {
      NewestStart(h, e);
    }
  }

  lemma OverStays(h: seq<Event>, more: seq<Event>, n: nat)
    requires Over(h, n) && h <= more && n <= |Starts(h)| && History(more)
    ensures Over(more, n) && n <= |Starts(more)|
  {
    hide Starts;
    var j :| 0 <= j < |h| && h[j].PairedFinish() && h[j].sequence == n;
    assert more[j] == h[j];
    NumberedOf(more);
    StartsOfPrefix(more, |h|);
    assert more[..|h|] == h;
  }

  /** The turn gives neither the attachment up nor everything. */
  ghost predicate Holds(r: Run, m: nat, attachment: nat) {
    m < |r.turns| && (r.turns[m].cause.Took? ==> !SpanDelivery.GivesUp(r.turns[m].cause.e, attachment))
  }

  /** The matched finish of number `n` looks like the end of a marker query. */
  predicate MarkedEnd(e: Event, n: nat) {
    e.PairedFinish() && e.correlation != Unmatched && e.scopeToken != [] && e.sequence == n
  }

  /** Turn `k` reads the finish of a running execution, and it looks like the end of a marker query. */
  ghost predicate EndsMarked(r: Run, k: nat, n: nat, attachment: nat) {
    && k < |r.turns| < |r.forests| && Runs(r.forests[k], n, attachment) && r.turns[k].cause.Took?
    && var e := r.turns[k].cause.e; MarkedEnd(e, n)
  }

  lemma {:induction false} StillRuns(c: Config, acts: seq<R.Act>, r: Run, k: nat, l: nat, n: nat, attachment: nat)
    requires Steps(c, acts, r) && History(EventsOf(r.turns)) && k < l <= |r.turns|
    requires EndsMarked(r, k, n, attachment) && forall m :: k < m < l ==> Holds(r, m, attachment)
    ensures Runs(r.forests[l], n, attachment) && Over(EventsOf(r.turns[..l]), n)
    ensures 0 < n <= |Starts(EventsOf(r.turns[..l]))|
    decreases l
  {
    hide TurnOk, AllLinked, EventsOf, History, Starts, Runs, Over;
    var m := l - 1;
    var t, h := r.turns[m], EventsOf(r.turns[..m]);
    SpanDelivery.TurnOf(c, acts, r, m);
    assert r.turns[..l] == r.turns[..m] + [t];
    EventsAppend(r.turns[..m], t);
    assert h + [] == h;
    if m == k {
      MarkedRuns(c, acts, r.forests[m], t, r.forests[l], h, n, attachment);
    } else {
      StillRuns(c, acts, r, k, m, n, attachment);
      assert Holds(r, m, attachment);
      TurnRuns(c, acts, r.forests[m], t, r.forests[l], h, n, attachment);
      if t.cause.Took? {
        OverStays(h, h + [t.cause.e], n);
      }
    }
  }

  /** The marked finish itself takes nothing off. */
  lemma MarkedRuns(c: Config, acts: seq<R.Act>, f: Forest, t: Turn, g: Forest, h: seq<Event>, n: nat, attachment: nat)
    requires TurnOk(c, acts, f, t, g) && Runs(f, n, attachment) && t.cause.Took? && History(h + [t.cause.e])
    requires MarkedEnd(t.cause.e, n)
    ensures Runs(g, n, attachment) && Over(h + [t.cause.e], n) && 0 < n <= |Starts(h + [t.cause.e])|
  {
    hide Starts, F.Sound, F.Rooted, CauseOk, Swept, Flushes, FlushOk, AlwaysNested, ParentsOpen, FinishesOnce;
    var e := t.cause.e;
    var read := h + [e];
    assert read[|h|] == e && read[..|h|] == h;
    assert e.kind != Gap && e.phase == Finish by { Leaks.EventPhase(h, e); }
    StartsLater(h, e);
    SweptFields(Read(c, f, t.cause), t.visits);
  }

  /**
   * After the marked finish of a running execution its attachment stays busy: until the consumer gives the attachment
   * up no start of it is taken for the statement that a marker query announced.
   */
  lemma MarkedEndBlocksAttachment(
      c: Config, acts: seq<R.Act>, r: Run, k: nat, l: nat, n: nat, attachment: nat, e: Event)
    requires Steps(c, acts, r) && History(EventsOf(r.turns)) && k < l <= |r.turns|
    requires EndsMarked(r, k, n, attachment) && forall m :: k < m < l ==> Holds(r, m, attachment)
    requires e.attachment == attachment
    ensures l < |r.forests| && !F.TakesPending(r.forests[l], e)
  {
    hide *;
    StillRuns(c, acts, r, k, l, n, attachment);
    RunIsCounted(c, acts, r, l);
    CountedTakesNothing(c, r.forests[l], EventsOf(r.turns[..l]), n, attachment, e);
  }

  lemma CountedTakesNothing(c: Config, f: Forest, h: seq<Event>, n: nat, attachment: nat, e: Event)
    requires Counted(c, f, h) && Runs(f, n, attachment) && e.attachment == attachment
    ensures !F.TakesPending(f, e)
  {
    hide Tally, Runs, F.TakesPending, Starts;
    BusyTakesNothing(f, |Starts(h)|, c.bounds.maxPending, n, attachment, e);
  }
}
