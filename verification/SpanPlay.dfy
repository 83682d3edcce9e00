/**
 * Runs of the consumer on the events of a fresh parser, built one record after the other: the critical sections, the
 * turns they answer, and the state of both sides (trace/spans.go, consume).
 */
module SpanPlay {
  import opened Options
  import opened TraceEvents
  import opened TracePairing
  import opened SpanLinks
  import opened SpanMachine
  import F = SpanForest
  import Leaks = SpanLeaks
  import Nesting = TraceNesting
  import R = SpanRegistry

  // ---- every turn keeps the link between the trees and what was read

  lemma ReadKeepsLinked(c: Config, f: Forest, h: seq<Event>, e: Event, announced: bool, found: bool)
    requires AllLinked(f, h, c.maxNodes) && History(h + [e]) && F.Sound(f) && F.Rooted(f)
    ensures AllLinked(Consumed(c, f, e, announced, found), h + [e], c.maxNodes)
  {
    hide History, AllLinked, F.Sound, F.Rooted, F.Started, F.Finished, F.Cleared, F.ClearedAttachment, F.Announced;
    Leaks.EventPhase(h, e);
    if e.kind != Gap && e.scopeToken == [] && e.sequence > 0 {
      if e.phase == Phase.Start {
        StartedKeeps(f, h, e, announced, found, c.maxNodes);
      } else {
        FinishedKeeps(f, h, e, c.maxNodes);
      }
    } else {
      OtherKeepsLinked(c, f, h, e, found);
      NeutralKeeps(Consumed(c, f, e, announced, found), h, e, c.maxNodes);
    }
  }

  lemma OtherKeepsLinked(c: Config, f: Forest, h: seq<Event>, e: Event, found: bool)
    requires AllLinked(f, h, c.maxNodes) && F.Sound(f) && F.Rooted(f)
    ensures AllLinked(F.Cleared(f), h, c.maxNodes) && AllLinked(F.ClearedAttachment(f, e.attachment), h, c.maxNodes)
    ensures AllLinked(F.Announced(f, e, found, c.clock(e.timestamp), c.bounds.maxPending), h, c.maxNodes)
  {
    hide AllLinked, F.Sound, F.Rooted, F.Cleared, F.ClearedAttachment;
    ClearedKeeps(f, h, c.maxNodes);
    ClearedAttachmentKeeps(f, h, e.attachment, c.maxNodes);
    OtherFieldsKeep(f, F.Announced(f, e, found, c.clock(e.timestamp), c.bounds.maxPending), h, c.maxNodes);
  }

  lemma {:induction false} SweptKeepsLinked(f: Forest, h: seq<Event>, visits: seq<Visit>, maxNodes: nat)
    requires AllLinked(f, h, maxNodes) && History(h) && OncePerTree(visits)
    requires forall i :: 0 <= i < |visits| ==> visits[i].id in f.live
    ensures AllLinked(Swept(f, visits), h, maxNodes)
  {
    hide AllLinked, History, F.Flushed;
    if visits != [] {
      var n := |visits| - 1;
      var some, v := visits[..n], visits[n];
      SweptKeepsLinked(f, h, some, maxNodes);
      var g := Swept(f, some);
      SweptLive(f, some, v.id);
      if v.id < |g.made| {
        FlushedKeeps(g, h, v.id, v.answer, maxNodes);
      }
    }
  }

  lemma TurnKeepsLinked(c: Config, acts: seq<R.Act>, f: Forest, t: Turn, g: Forest, h: seq<Event>)
    requires TurnOk(c, acts, f, t, g) && AllLinked(f, h, c.maxNodes)
    requires if t.cause.Took? then History(h + [t.cause.e]) else History(h)
    ensures AllLinked(g, if t.cause.Took? then h + [t.cause.e] else h, c.maxNodes)
  {
    hide AllLinked, History, F.Sound, F.Rooted, CauseOk, FlushOk, Consumed, Swept, Flushes;
    var r, read := Read(c, f, t.cause), if t.cause.Took? then h + [t.cause.e] else h;
    if t.cause.Took? {
      ReadKeepsLinked(c, f, h, t.cause.e, t.cause.announced.Some?, t.cause.found.Some?);
    }
    Leaks.VisitsAreLive(c, acts, f, t, g);
    SweptKeepsLinked(r, read, t.visits, c.maxNodes);
    var s := Swept(r, t.visits);
    SoundOf(s, read, c.maxNodes);
    WithoutKeeps(s, read, s.live, c.maxNodes);
    if t.cause.Second? {
      OtherFieldsKeep(s, g, read, c.maxNodes);
    }
  }

  // ---- a run, record by record

  /** The critical sections so far, the run that answers them, the records read, and the parser's stacks after them. */
  datatype Play = Play(acts: seq<R.Act>, run: Run, records: seq<Event>, paired: Pairing)

  /** These are the events a fresh parser emits for the records, and this is its state after them. */
  ghost predicate Emission(records: seq<Event>, h: seq<Event>, p: Pairing) {
    Nesting.EmittedFor(records, h) && Nesting.After(records, |records|) == p
  }

  ghost predicate Playing(c: Config, p: Play) {
    && Steps(c, p.acts, p.run) && R.FreshTokens(p.acts)
    && (p.run.turns != [] ==> p.run.turns[|p.run.turns| - 1].until <= |p.acts|)
    && Emission(p.records, EventsOf(p.run.turns), p.paired) && Safe(p.paired, EventsOf(p.run.turns))
  }

  ghost function Now(c: Config, p: Play): Forest
    requires Playing(c, p)
  {
    p.run.forests[|p.run.turns|]
  }

  lemma {:induction false} AfterPrefix(records: seq<Event>, e: Event, n: nat)
    requires n <= |records|
    ensures Nesting.After(records + [e], n) == Nesting.After(records, n)
  {
    hide Pair;
    if n > 0 {
      AfterPrefix(records, e, n - 1);
    }
  }

  lemma EmissionAppend(records: seq<Event>, h: seq<Event>, p: Pairing, e: Event)
    requires Emission(records, h, p)
    ensures Emission(records + [e], h + [Pair(p, e).1], Pair(p, e).0)
  {
    hide Pair, Nesting.After;
    var more := records + [e];
    AfterPrefix(records, e, |records|);
    AfterLast(records, e);
    forall n | 0 <= n < |more| ensures (h + [Pair(p, e).1])[n] == Nesting.Emitted(more, n) {
      AfterPrefix(records, e, n);
    }
  }

  lemma AfterLast(records: seq<Event>, e: Event)
    ensures Nesting.After(records + [e], |records| + 1) == Pair(Nesting.After(records, |records|), e).0
  {
    hide Pair;
    AfterPrefix(records, e, |records|);
  }

  /** The next record is read; `more` are the critical sections of its turn. */
  function Next(c: Config, p: Play, f: Forest, record: Event, announced: Option<R.Scope>, found: Option<R.Scope>,
                visits: seq<Visit>, more: seq<R.Act>): (q: Play)
    requires F.Sound(f) && F.Rooted(f)
  {
    var (paired, e) := Pair(p.paired, record);
    var t := TurnOf(p, e, announced, found, visits, more);
    Play(p.acts + more, With(p.run, t, Turned(c, f, t)), p.records + [record], paired)
  }

  function TurnOf(p: Play, e: Event, announced: Option<R.Scope>, found: Option<R.Scope>, visits: seq<Visit>,
                  more: seq<R.Act>): Turn
  {
    Turn(|p.acts|, |p.acts| + |more|, Took(e, announced, found), visits)
  }

  lemma NowIsFine(c: Config, p: Play)
    requires Playing(c, p)
    ensures AllLinked(Now(c, p), EventsOf(p.run.turns), c.maxNodes) && F.Sound(Now(c, p)) && F.Rooted(Now(c, p))
  {
    hide TurnOk, AllLinked, Emission, Safe, F.Sound, F.Rooted, EventsOf;
    var f, h := Now(c, p), EventsOf(p.run.turns);
    assert p.run.turns[..|p.run.turns|] == p.run.turns;
    SoundOf(f, h, c.maxNodes);
    LinkedIsRooted(f, h, c.maxNodes);
  }

  lemma TakeRecord(c: Config, p: Play, f: Forest, record: Event, announced: Option<R.Scope>, found: Option<R.Scope>,
                   visits: seq<Visit>, more: seq<R.Act>)
    requires Playing(c, p) && f == Now(c, p) && F.Sound(f) && F.Rooted(f) && Unpaired(p.paired, record)
    requires R.FreshTokens(p.acts + more)
    requires TurnOk(c, p.acts + more, f, TurnOf(p, Pair(p.paired, record).1, announced, found, visits, more),
                    Turned(c, f, TurnOf(p, Pair(p.paired, record).1, announced, found, visits, more)))
    ensures var q := Next(c, p, f, record, announced, found, visits, more);
      Playing(c, q) && EventsOf(q.run.turns) == EventsOf(p.run.turns) + [Pair(p.paired, record).1]
      && Now(c, q) == Turned(c, f, TurnOf(p, Pair(p.paired, record).1, announced, found, visits, more))
  {
    hide TurnOk, AllLinked, Emission, Safe, F.Sound, F.Rooted, EventsOf, Turned, Pair, R.FreshTokens, Unpaired;
    var h, e := EventsOf(p.run.turns), Pair(p.paired, record).1;
    var t := TurnOf(p, e, announced, found, visits, more);
    NowIsFine(c, p);
    EmissionAppend(p.records, h, p.paired, record);
    PairKeepsSafe(p.paired, h, record, e);
    SafeHistory(Pair(p.paired, record).0, h + [e]);
    EventsAppend(p.run.turns, t);
    TurnKeepsLinked(c, p.acts + more, f, t, Turned(c, f, t), h);
    StepsLonger(c, p.acts, p.run, p.acts + more);
    StepsWith(c, p.acts + more, p.run, t, Turned(c, f, t));
  }

  /** Clients run between two turns. */
  lemma ClientsRun(c: Config, p: Play, more: seq<R.Act>)
    requires Playing(c, p) && R.FreshTokens(p.acts + more)
    ensures Playing(c, p.(acts := p.acts + more)) && Now(c, p.(acts := p.acts + more)) == Now(c, p)
  {
    hide TurnOk, AllLinked, Emission, Safe, EventsOf, R.FreshTokens;
    StepsLonger(c, p.acts, p.run, p.acts + more);
  }

  const STARTED: Play := Play([R.Begin], Run([], [F.BARE]), [], EMPTY)

  lemma NothingPlayed(c: Config)
    requires c.maxNodes > 0
    ensures Playing(c, STARTED) && Now(c, STARTED) == F.BARE
  {
    BareExplained(c);
    StepsLonger(c, [], STARTED.run, [R.Begin]);
    hide Steps;
    assert Nesting.After([], 0) == EMPTY;
  }
}
