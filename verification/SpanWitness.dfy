/**
 * Streams after which the consumer does not do what one would expect: a marker query announces a statement, under it
 * run others, and the finish of the last of them looks like the end of a marker query (trace/spans.go, consume).
 */
module SpanWitness {
  import opened Options
  import opened Utf8
  import opened ByteText
  import opened TraceEvents
  import opened TracePairing
  import opened SpanFamily
  import opened SpanLinks
  import opened SpanMachine
  import opened SpanPlay
  import F = SpanForest
  import Leaks = SpanLeaks
  import R = SpanRegistry

  // ---- the records

  const STAMP: Bytes := Ascii("2026-01-01T00:00:00.0000")

  /**
   * What `SELECT 1 FROM RDB$DATABASE` becomes, with or without the comment that makes it a marker query
   * (trace/runtime_test.go:487).
   */
  const QUERY: Bytes := Ascii("SELECT RDB$DATABASE")
  const QUERY_TEXT: Bytes := Ascii("SELECT ? FROM RDB$DATABASE")
  const CALL: Bytes := Ascii("EXECUTE PROCEDURE P")

  function RecordOf(a: nat, phase: Phase, statement: nat, name: Bytes, text: Bytes, token: Bytes): Event {
    NewRecord(Statement, phase, STAMP, false).(
      attachment := a, transaction := 1, statement := statement, name := name, sql := text, scopeToken := token)
  }

  function Marker(a: nat, phase: Phase, token: Bytes): Event {
    RecordOf(a, phase, 1, QUERY, QUERY_TEXT, token)
  }

  function Outer(a: nat, phase: Phase): Event {
    RecordOf(a, phase, 2, CALL, CALL, [])
  }

  function Inner(a: nat, phase: Phase, token: Bytes): Event {
    RecordOf(a, phase, 3, QUERY, QUERY_TEXT, token)
  }

  // ---- tokens: 32 hexadecimal digits, never the same twice

  function Digit(d: nat): byte
    requires d < 16
  {
    if d < 10 then 0x30 + d else 0x57 + d
  }

  function TokenOf(j: nat): Bytes {
    seq(29, _ => 0x30) + [Digit(j / 256 % 16), Digit(j / 16 % 16), Digit(j % 16)]
  }

  const UNKNOWN_TOKEN: Bytes := seq(32, _ => 0x66)

  predicate IsToken(t: Bytes) {
    |t| == 32 && forall i :: 0 <= i < 32 ==> 0x30 <= t[i] <= 0x39 || 0x61 <= t[i] <= 0x66
  }

  lemma TokensAreTokens(j: nat)
    ensures IsToken(TokenOf(j)) && IsToken(UNKNOWN_TOKEN) && TokenOf(j) != UNKNOWN_TOKEN
    ensures TokenOf(j) != [] && UNKNOWN_TOKEN != []
  {
    assert TokenOf(j)[0] == 0x30;
  }

  lemma TokensDiffer(j: nat, k: nat)
    requires j < 4096 && k < 4096 && TokenOf(j) == TokenOf(k)
    ensures j == k
  {
    var s, t := TokenOf(j), TokenOf(k);
    assert s[29] == Digit(j / 256 % 16) && t[29] == Digit(k / 256 % 16);
    assert s[30] == Digit(j / 16 % 16) && t[30] == Digit(k / 16 % 16);
    assert s[31] == Digit(j % 16) && t[31] == Digit(k % 16);
    DigitsDiffer(j / 256 % 16, k / 256 % 16);
    DigitsDiffer(j / 16 % 16, k / 16 % 16);
    DigitsDiffer(j % 16, k % 16);
    SixteenDigits(j);
    SixteenDigits(k);
  }

  lemma SixteenDigits(j: nat)
    requires j < 4096
    ensures j == 256 * (j / 256 % 16) + 16 * (j / 16 % 16) + j % 16
  {
  }

  lemma DigitsDiffer(d: nat, e: nat)
    requires d < 16 && e < 16 && Digit(d) == Digit(e)
    ensures d == e
  {
  }

  // ---- the parser

  function Stacked(a: nat, stack: seq<Frame>, sequence: nat): Pairing {
    EMPTY.(stacks := if stack == [] then map[] else map[(a, 1) := stack], sequence := sequence)
  }

  lemma StackedStack(a: nat, stack: seq<Frame>, n: nat)
    ensures Stacked(a, stack, n).Stack((a, 1)) == stack
    ensures |stack| < MAX_DEPTH ==> !TooDeep(Stacked(a, stack, n), (a, 1))
    ensures stack != [] ==> Stacked(a, stack, n).stacks == Stacked(a, [], n).stacks[(a, 1) := stack]
    ensures Stacked(a, stack, n).stacks - {(a, 1)} == map[]
    ensures forall other :: Stacked(a, stack, n).stacks[(a, 1) := other] == map[(a, 1) := other]
  {
  }

  /** A statement of attachment `a`, as the lines of its record leave it. */
  predicate OnAttachment(r: Event, a: nat) {
    r.kind == Statement && r.attachment == a > 0 && r.transaction == 1 && r.statement > 0 && !r.incomplete
    && r.sequence == 0 && r.parent == 0 && r.correlation == Heuristic
  }

  function FrameAt(r: Event, n: nat): Frame {
    Frame(Statement, r.name, n, r.statement)
  }

  /** A start goes onto the stack. */
  lemma PairPushes(a: nat, stack: seq<Frame>, n: nat, r: Event)
    requires |stack| < MAX_DEPTH && OnAttachment(r, a) && r.phase == Phase.Start
    ensures Pair(Stacked(a, stack, n), r)
      == (Stacked(a, stack + [FrameAt(r, n + 1)], n + 1), r.(sequence := n + 1, parent := Top(stack)))
    ensures Unpaired(Stacked(a, stack, n), r)
  {
    StackedStack(a, stack, n);
    hide TooDeep;
  }

  /** A finish that names the start on top takes it off. */
  lemma PairPops(a: nat, stack: seq<Frame>, n: nat, r: Event, sequence: nat)
    requires OnAttachment(r, a) && r.phase == Finish
    ensures Pair(Stacked(a, stack + [FrameAt(r, sequence)], n), r)
      == (Stacked(a, stack, n), r.(sequence := sequence, parent := Top(stack)))
    ensures Unpaired(Stacked(a, stack + [FrameAt(r, sequence)], n), r)
  {
    var longer := stack + [FrameAt(r, sequence)];
    StackedStack(a, longer, n);
    assert longer[..|longer| - 1] == stack;
  }

  // ---- the registry

  const CLIENT: R.SpanContext := R.SpanContext(1, true, true)
  const SCOPE: R.Scope := R.Scope(CLIENT, 0, None)

  ghost predicate Registered(c: Config, acts: seq<R.Act>, scopes: map<R.Token, R.Scope>) {
    R.After(c.bounds, acts) == R.Registry(true, false, true, scopes)
  }

  lemma ActAppended(c: Config, acts: seq<R.Act>, a: R.Act)
    ensures R.After(c.bounds, acts + [a]) == R.Step(c.bounds, R.After(c.bounds, acts), a)
  {
    hide R.Step;
    assert (acts + [a])[..|acts|] == acts;
  }

  /** A lookup at a time when nothing has expired. */
  lemma LookupAnswers(c: Config, acts: seq<R.Act>, scopes: map<R.Token, R.Scope>, token: R.Token)
    requires Registered(c, acts, scopes) && c.bounds.retention >= 0 && (token in scopes ==> scopes[token] == SCOPE)
    ensures var more := acts + [R.Lookup(token, 0)];
      && Registered(c, more, scopes)
      && Asked(c.bounds, more, |acts|, |more|, token, if token in scopes then Some(SCOPE) else None)
  {
    var more := acts + [R.Lookup(token, 0)];
    ActAppended(c, acts, R.Lookup(token, 0));
    hide R.After;
    assert more[..|acts|] == acts;
    assert AnsweredAt(c.bounds, more, |acts|, token, if token in scopes then Some(SCOPE) else None);
  }

  /** Only the tokens of the first `j` announcements have been given out. */
  ghost predicate Drawn(acts: seq<R.Act>, j: nat) {
    forall i :: 0 <= i < |acts| && acts[i].Register? ==> DrawnAs(acts[i], j)
  }

  ghost predicate DrawnAs(act: R.Act, j: nat)
    requires act.Register?
  {
    exists k: nat :: k < j && act.token == TokenOf(k)
  }

  lemma DrawnMore(acts: seq<R.Act>, j: nat, a: R.Act)
    requires Drawn(acts, j) && R.FreshTokens(acts) && !a.Register?
    ensures Drawn(acts + [a], j) && R.FreshTokens(acts + [a])
  {
    hide DrawnAs;
  }

  lemma DrawnNext(acts: seq<R.Act>, j: nat)
    requires Drawn(acts, j) && R.FreshTokens(acts) && j < 4096
    ensures var a := R.Act.Register(CLIENT, TokenOf(j), 0); Drawn(acts + [a], j + 1) && R.FreshTokens(acts + [a])
  {
    var a := R.Act.Register(CLIENT, TokenOf(j), 0);
    var more := acts + [a];
    forall i | 0 <= i < |more| && more[i].Register? ensures DrawnAs(more[i], j + 1) {
      if i < |acts| {
        assert DrawnAs(acts[i], j);
        var k: nat :| k < j && acts[i].token == TokenOf(k);
        assert k < j + 1 && more[i].token == TokenOf(k);
      } else {
        assert more[i].token == TokenOf(j);
      }
    }
    forall i | 0 <= i < |acts| && acts[i].Register? ensures acts[i].token != a.token {
      assert DrawnAs(acts[i], j);
      var k: nat :| k < j && acts[i].token == TokenOf(k);
      if acts[i].token == a.token {
        TokensDiffer(k, j);
      }
    }
  }

  // ---- one record of the play

  /** What the streams need of the configuration: room, time, and a clock that reads the stamp. */
  ghost predicate Able(c: Config) {
    c.maxNodes > 0 && c.bounds.maxPending > 0 && c.bounds.retention >= 0 && c.clock(STAMP).Some?
  }

  /** Where a play stands: the parser's only stack, how many starts there were, and the registered scopes. */
  ghost predicate Stage(
      c: Config, p: Play, f: Forest, a: nat, stack: seq<Frame>, s: nat, scopes: map<R.Token, R.Scope>, j: nat)
  {
    && Playing(c, p) && f == Now(c, p) && p.paired == Stacked(a, stack, s)
    && Registered(c, p.acts, scopes) && Drawn(p.acts, j)
  }

  lemma StageIsFine(
      c: Config, p: Play, f: Forest, a: nat, stack: seq<Frame>, s: nat, scopes: map<R.Token, R.Scope>, j: nat)
    requires Stage(c, p, f, a, stack, s, scopes, j)
    ensures Playing(c, p) && f == Now(c, p) && F.Sound(f) && F.Rooted(f) && R.FreshTokens(p.acts)
    ensures p.paired == Stacked(a, stack, s) && Registered(c, p.acts, scopes) && Drawn(p.acts, j)
  {
    hide Playing, F.Sound, F.Rooted;
    NowIsFine(c, p);
    FreshPlay(c, p);
  }

  lemma FreshPlay(c: Config, p: Play)
    requires Playing(c, p)
    ensures R.FreshTokens(p.acts)
  {
    hide Steps, Emission, Safe, EventsOf;
  }

  /** A record whose event ends no root. */
  lemma PlainRecord(c: Config, p: Play, f: Forest, record: Event, announced: Option<R.Scope>, found: Option<R.Scope>,
                    more: seq<R.Act>, e: Event)
    requires Playing(c, p) && f == Now(c, p) && F.Sound(f) && F.Rooted(f) && Unpaired(p.paired, record)
    requires R.FreshTokens(p.acts + more) && e == Pair(p.paired, record).1
    requires EventOk(c, p.acts + more, |p.acts|, |p.acts + more|, f, e, announced, found)
    requires !Flushes(f, Took(e, announced, found))
    ensures var q := Next(c, p, f, record, announced, found, [], more);
      Playing(c, q) && Now(c, q) == Consumed(c, f, e, announced.Some?, found.Some?)
      && EventsOf(q.run.turns) == EventsOf(p.run.turns) + [e]
  {
    hide Playing, F.Sound, F.Rooted, Unpaired, R.FreshTokens, EventOk, Flushes, Pair, Consumed, EventsOf;
    TakeRecord(c, p, f, record, announced, found, [], more);
  }

  lemma StageAfter(
      c: Config, p: Play, q: Play, f: Forest, a: nat, stack: seq<Frame>, s: nat, scopes: map<R.Token, R.Scope>, j: nat)
    requires Playing(c, q) && f == Now(c, q) && q.paired == Stacked(a, stack, s)
    requires Registered(c, q.acts, scopes) && Drawn(q.acts, j)
    ensures Stage(c, q, f, a, stack, s, scopes, j)
  {
  }

  /** The client draws the token of the next announcement and binds its span to it. */
  lemma ClientAnnounces(c: Config, p: Play, f: Forest, a: nat, s: nat, j: nat) returns (q: Play)
    requires Able(c) && j < 4096 && Stage(c, p, f, a, [], s, map[], j)
    ensures Stage(c, q, f, a, [], s, map[TokenOf(j) := SCOPE], j + 1)
  {
    hide Playing, TokenOf, Stacked;
    var register, bind := R.Act.Register(CLIENT, TokenOf(j), 0), R.Act.Bind(TokenOf(j), CLIENT);
    StageIsFine(c, p, f, a, [], s, map[], j);
    DrawnNext(p.acts, j);
    DrawnMore(p.acts + [register], j + 1, bind);
    ClientsRun(c, p, [register]);
    q := p.(acts := p.acts + [register]);
    ClientsRun(c, q, [bind]);
    q := q.(acts := p.acts + [register] + [bind]);
    ScopeIsBound(c, p.acts, TokenOf(j));
  }

  lemma ScopeIsBound(c: Config, acts: seq<R.Act>, token: R.Token)
    requires Able(c) && Registered(c, acts, map[])
    ensures Registered(c, acts + [R.Act.Register(CLIENT, token, 0)] + [R.Act.Bind(token, CLIENT)], map[token := SCOPE])
  {
    var register, bind := R.Act.Register(CLIENT, token, 0), R.Act.Bind(token, CLIENT);
    ActAppended(c, acts, register);
    ActAppended(c, acts + [register], bind);
    hide R.After;
    assert R.Unexpired(c.bounds, map[], 0) == map[];
    assert map[token := R.Scope(R.NO_CONTEXT, 0, None)][token := SCOPE] == map[token := SCOPE];
  }

  /** A marker query that begins concerns the consumer in no way. */
  lemma MarkerBegins(c: Config, p: Play, f: Forest, a: nat, s: nat, scopes: map<R.Token, R.Scope>, j: nat, token: Bytes)
    returns (q: Play)
    requires Stage(c, p, f, a, [], s, scopes, j) && a > 0 && token != []
    ensures Stage(c, q, f, a, [FrameAt(Marker(a, Phase.Start, token), s + 1)], s + 1, scopes, j)
  {
    hide Playing, F.Sound, F.Rooted, Stacked, Unpaired, Pair, STAMP, QUERY, QUERY_TEXT;
    var r := Marker(a, Phase.Start, token);
    StageIsFine(c, p, f, a, [], s, scopes, j);
    PairPushes(a, [], s, r);
    var e := Pair(p.paired, r).1;
    assert p.acts + [] == p.acts;
    PlainRecord(c, p, f, r, None, None, [], e);
    q := Next(c, p, f, r, None, None, [], []);
    assert [] + [FrameAt(r, s + 1)] == [FrameAt(r, s + 1)];
  }

  /** The end of a query that looks like a marker query: the consumer asks for its token. */
  lemma MarkedEnds(c: Config, p: Play, f: Forest, a: nat, stack: seq<Frame>, n: nat, s: nat, r: Event,
                   scopes: map<R.Token, R.Scope>, j: nat) returns (q: Play)
    requires Able(c) && Stage(c, p, f, a, stack + [FrameAt(r, n)], s, scopes, j) && n > 0
    requires OnAttachment(r, a) && r.phase == Finish && r.scopeToken != []
    requires r.scopeToken in scopes ==> scopes[r.scopeToken] == SCOPE
    ensures Stage(
      c, q, F.Announced(f, r, r.scopeToken in scopes, c.clock(r.timestamp), c.bounds.maxPending), a, stack, s, scopes,
      j)
  {
    hide Playing, F.Sound, F.Rooted, Stacked, Unpaired, Pair, F.Announced, Asked;
    var look := R.Lookup(r.scopeToken, 0);
    var found := if r.scopeToken in scopes then Some(SCOPE) else None;
    StageIsFine(c, p, f, a, stack + [FrameAt(r, n)], s, scopes, j);
    PairPops(a, stack, s, r, n);
    var e := Pair(p.paired, r).1;
    LookupAnswers(c, p.acts, scopes, r.scopeToken);
    DrawnMore(p.acts, j, look);
    SameAnnouncement(f, r, e, found.Some?, c.clock(r.timestamp), c.bounds.maxPending);
    PlainRecord(c, p, f, r, None, found, [look], e);
    q := Next(c, p, f, r, None, found, [], [look]);
  }

  lemma SameAnnouncement(f: Forest, r: Event, e: Event, found: bool, anchor: Option<int>, maxPending: nat)
    requires e.attachment == r.attachment && e.scopeToken == r.scopeToken
    ensures F.Announced(f, e, found, anchor, maxPending) == F.Announced(f, r, found, anchor, maxPending)
  {
  }

  /** The announced statement begins: its token is asked for twice, and a tree is opened for it. */
  lemma RootBegins(c: Config, p: Play, f: Forest, a: nat, s: nat, j: nat, token: Bytes) returns (q: Play, g: Forest)
    requires Able(c) && Stage(c, p, f, a, [], s, map[token := SCOPE], j) && a > 0
    requires a in f.pending && f.pending[a].token == token && F.Count(f, a) == 0 && |f.frames| < F.MAX_FRAMES
    ensures F.Sound(f)
    ensures var e := Outer(a, Phase.Start).(sequence := s + 1);
      g == F.Started(f, e, true, true, c.maxNodes)
      && Stage(c, q, g, a, [FrameAt(Outer(a, Phase.Start), s + 1)], s + 1, map[token := SCOPE], j)
  {
    hide Playing, F.Sound, F.Rooted, Stacked, Unpaired, Pair, Asked, F.Started, Withdrawn, STAMP, CALL;
    var r, look, scopes := Outer(a, Phase.Start), R.Lookup(token, 0), map[token := SCOPE];
    StageIsFine(c, p, f, a, [], s, scopes, j);
    PairPushes(a, [], s, r);
    var e := Pair(p.paired, r).1;
    assert [] + [FrameAt(r, s + 1)] == [FrameAt(r, s + 1)];
    LookupAnswers(c, p.acts, scopes, token);
    LookupAnswers(c, p.acts + [look], scopes, token);
    DrawnMore(p.acts, j, look);
    DrawnMore(p.acts + [look], j, look);
    var first, both := p.acts + [look], p.acts + [look] + [look];
    assert p.acts + [look, look] == both;
    AskedLonger(c.bounds, first, |p.acts|, |first|, token, Some(SCOPE), both, |p.acts|, |both|);
    AskedLonger(c.bounds, both, |first|, |both|, token, Some(SCOPE), both, |p.acts|, |both|);
    OpenedTree(f, e);
    PlainRecord(c, p, f, r, Some(SCOPE), Some(SCOPE), [look, look], e);
    q := Next(c, p, f, r, Some(SCOPE), Some(SCOPE), [], [look, look]);
    g := Now(c, q);
  }

  lemma OpenedTree(f: Forest, e: Event)
    requires F.Sound(f) && F.TakesPending(f, e)
    ensures var (g, tree) := F.Opened(f, e, true);
      && tree == Some(|f.made|) && |g.made| == |f.made| + 1 && g.made[|f.made|].token == f.pending[e.attachment].token
  {
  }

  /** A statement begins under one that has a tree: the token of the tree is asked for. */
  lemma ChildBegins(c: Config, p: Play, f: Forest, a: nat, stack: seq<Frame>, s: nat, j: nat, token: Bytes, r: Event,
                    id: nat) returns (q: Play, g: Forest)
    requires Able(c) && Stage(c, p, f, a, stack, s, map[token := SCOPE], j) && 0 < |stack| < MAX_DEPTH
    requires OnAttachment(r, a) && r.phase == Phase.Start && r.scopeToken == []
    requires f.pending == map[] && F.Owner(f, Top(stack)) == Some(id) && |f.frames| < F.MAX_FRAMES
    requires id < |f.made| && f.made[id].token == token
    ensures F.Sound(f)
    ensures var e := r.(sequence := s + 1, parent := Top(stack));
      g == F.Started(f, e, false, true, c.maxNodes)
      && Stage(c, q, g, a, stack + [FrameAt(r, s + 1)], s + 1, map[token := SCOPE], j)
  {
    hide Playing, F.Sound, F.Rooted, Stacked, Unpaired, Pair, Asked, F.Started, Withdrawn, Top;
    var look, scopes := R.Lookup(token, 0), map[token := SCOPE];
    StageIsFine(c, p, f, a, stack, s, scopes, j);
    PairPushes(a, stack, s, r);
    var e := Pair(p.paired, r).1;
    LookupAnswers(c, p.acts, scopes, token);
    DrawnMore(p.acts, j, look);
    PlainRecord(c, p, f, r, None, Some(SCOPE), [look], e);
    q := Next(c, p, f, r, None, Some(SCOPE), [], [look]);
    g := Now(c, q);
  }

  /** A statement ends that is no root. */
  lemma ChildEnds(c: Config, p: Play, f: Forest, a: nat, stack: seq<Frame>, n: nat, s: nat,
                  scopes: map<R.Token, R.Scope>, j: nat, r: Event) returns (q: Play, g: Forest)
    requires Stage(c, p, f, a, stack + [FrameAt(r, n)], s, scopes, j) && n > 0
    requires OnAttachment(r, a) && r.phase == Finish && r.scopeToken == []
    requires F.Sound(f) && !F.Completes(f, r.(sequence := n, parent := Top(stack)))
    ensures g == F.Finished(f, r.(sequence := n, parent := Top(stack))) && Stage(c, q, g, a, stack, s, scopes, j)
  {
    hide Playing, F.Sound, F.Rooted, Stacked, Unpaired, Pair, F.Finished, F.Completes, Top;
    StageIsFine(c, p, f, a, stack + [FrameAt(r, n)], s, scopes, j);
    PairPops(a, stack, s, r, n);
    var e := Pair(p.paired, r).1;
    assert p.acts + [] == p.acts;
    PlainRecord(c, p, f, r, None, None, [], e);
    q := Next(c, p, f, r, None, None, [], []);
    g := Now(c, q);
  }

  /** The root ends: its tree is complete and bound, so it is sent and its token is withdrawn. */
  lemma RootEnds(c: Config, p: Play, f: Forest, a: nat, n: nat, s: nat, j: nat, token: Bytes, id: nat)
    returns (q: Play, g: Forest)
    requires Able(c) && Stage(c, p, f, a, [FrameAt(Outer(a, Finish), n)], s, map[token := SCOPE], j) && n > 0 && a > 0
    requires F.Sound(f) && F.Completes(f, Outer(a, Finish).(sequence := n))
    requires f.live == {id} && id < |f.made| && f.made[id].token == token
    ensures var r := F.Finished(f, Outer(a, Finish).(sequence := n));
      id < |r.made| && g == F.Flushed(r, id, Some(SCOPE)) && Stage(c, q, g, a, [], s, map[], j)
    ensures Stage(c, q, g, a, [], s, map[], j) && q.run.turns != []
      && q.run.turns[|q.run.turns| - 1].visits == [Visit(id, Some(SCOPE))]
      && |q.run.forests| > |q.run.turns| && q.run.forests[|q.run.turns| - 1] == f
      && q.run.turns[|q.run.turns| - 1].cause == Took(Outer(a, Finish).(sequence := n), None, None)
  {
    hide Playing, F.Sound, F.Rooted, Stacked, Unpaired, Pair, Asked, F.Finished, F.Completes, Withdrawn, STAMP, CALL;
    var r, look, discard, scopes := Outer(a, Finish), R.Lookup(token, 0), R.Act.Discard(token), map[token := SCOPE];
    StageIsFine(c, p, f, a, [FrameAt(r, n)], s, scopes, j);
    assert [] + [FrameAt(r, n)] == [FrameAt(r, n)];
    PairPops(a, [], s, r, n);
    var e := Pair(p.paired, r).1;
    LookupAnswers(c, p.acts, scopes, token);
    DrawnMore(p.acts, j, look);
    DrawnMore(p.acts + [look], j, discard);
    var first, both := p.acts + [look], p.acts + [look] + [discard];
    assert p.acts + [look, discard] == both;
    AskedLonger(c.bounds, first, |p.acts|, |first|, token, Some(SCOPE), both, |p.acts|, |both|);
    ScopeIsWithdrawn(c, first, token);
    DiscardWithdraws(first, token, |p.acts|);
    FinishTokens(f, e, id);
    var visits := [Visit(id, Some(SCOPE))];
    OneVisit(c.bounds, both, |p.acts|, |both|, F.Finished(f, e), id);
    RootTurn(c, p, f, e, visits, [look, discard], both, id);
    TakeRecord(c, p, f, r, None, None, visits, [look, discard]);
    q := Next(c, p, f, r, None, None, visits, [look, discard]);
    g := Now(c, q);
    ForestBefore(c, p, f);
  }

  lemma ForestBefore(c: Config, p: Play, f: Forest)
    requires Playing(c, p) && f == Now(c, p)
    ensures |p.run.forests| == |p.run.turns| + 1 && p.run.forests[|p.run.turns|] == f
  {
    hide Steps, Emission, Safe, EventsOf;
    Leaks.ForestsOf(c, p.acts, p.run);
  }

  lemma ScopeIsWithdrawn(c: Config, acts: seq<R.Act>, token: R.Token)
    requires Registered(c, acts, map[token := SCOPE])
    ensures Registered(c, acts + [R.Act.Discard(token)], map[])
  {
    ActAppended(c, acts, R.Act.Discard(token));
    hide R.After;
    assert map[token := SCOPE] - {token} == map[];
  }

  lemma DiscardWithdraws(acts: seq<R.Act>, token: R.Token, since: nat)
    requires since <= |acts|
    ensures var more := acts + [R.Act.Discard(token)]; Withdrawn(more, since, |more|, token)
  {
    assert (acts + [R.Act.Discard(token)])[|acts|] == R.Act.Discard(token);
  }

  lemma OneVisit(b: R.Bounds, acts: seq<R.Act>, since: nat, until: nat, f: Forest, id: nat)
    requires f.live == {id} && id < |f.made|
    requires Asked(b, acts, since, until, f.made[id].token, Some(SCOPE))
    requires Withdrawn(acts, since, until, f.made[id].token)
    ensures FlushOk(b, acts, since, until, f, [Visit(id, Some(SCOPE))])
  {
    hide Asked, Withdrawn;
    var visits := [Visit(id, Some(SCOPE))];
    assert visits[0].id == id;
  }

  lemma RootTurn(
      c: Config, p: Play, f: Forest, e: Event, visits: seq<Visit>, more: seq<R.Act>, acts: seq<R.Act>, id: nat)
    requires acts == p.acts + more && F.Sound(f) && F.Rooted(f) && Ends(e) && e.phase == Finish && F.Completes(f, e)
    requires FlushOk(c.bounds, acts, |p.acts|, |acts|, F.Finished(f, e), visits) && visits == [Visit(id, Some(SCOPE))]
    requires id < |F.Finished(f, e).made|
    ensures var t := TurnOf(p, e, None, None, visits, more); TurnOk(c, acts, f, t, Turned(c, f, t))
    ensures Turned(c, f, TurnOf(p, e, None, None, visits, more)) == F.Flushed(F.Finished(f, e), id, Some(SCOPE))
  {
    hide F.Sound, F.Rooted, F.Finished, F.Completes, FlushOk, F.Flushed;
    Leaks.SweptNothing(F.Finished(f, e));
    SweptAppend(F.Finished(f, e), [], visits[0]);
    assert [] + [visits[0]] == visits;
  }
}
