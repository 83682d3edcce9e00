/** Pairing start and finish records on bounded stacks (internal/traceparse/parser.go, the end of finish, and Gap). */
module TracePairing {
  import opened TraceEvents
  import opened Utf8

  const MAX_SCOPES: nat := 64
  const MAX_DEPTH: nat := 64

  datatype Frame = Frame(kind: Kind, name: Bytes, sequence: nat, statement: nat)
  type Scope = (nat, nat)

  datatype Pairing = Pairing(stacks: map<Scope, seq<Frame>>, sequence: nat, incomplete: bool, overflow: bool)
  {
    function Stack(k: Scope): seq<Frame> {
      if k in stacks then stacks[k] else []
    }

    /** Gap: everything open is forgotten and every later record is incomplete. */
    function Lose(): Pairing {
      this.(stacks := map[], incomplete := true)
    }

    function Drop(k: Scope): Pairing {
      this.(stacks := stacks - {k}, incomplete := true)
    }
  }

  const EMPTY := Pairing(map[], 0, false, false)

  predicate Identified(e: Event) {
    e.attachment != 0 && e.transaction != 0 && (e.kind == Statement ==> e.statement != 0)
  }

  predicate TooDeep(p: Pairing, k: Scope) {
    (|p.stacks| >= MAX_SCOPES && p.Stack(k) == []) || |p.Stack(k)| >= MAX_DEPTH
  }

  predicate Closes(f: Frame, e: Event) {
    f.kind == e.kind && f.name == e.name && f.statement == e.statement
  }

  function Top(stack: seq<Frame>): nat {
    if stack == [] then 0 else stack[|stack| - 1].sequence
  }

  function PushStart(p: Pairing, e: Event): (Pairing, Event) {
    var k := e.Scope();
    var full := TooDeep(p, k);
    var q := if full then p.Lose().(overflow := true) else p;
    var n := p.sequence + 1;
    var stack := q.Stack(k);
    (q.(sequence := n, stacks := q.stacks[k := stack + [Frame(e.kind, e.name, n, e.statement)]]),
     e.(sequence := n, parent := Top(stack), incomplete := e.incomplete || q.incomplete))
  }

  function PopFinish(p: Pairing, e: Event): (Pairing, Event) {
    var k := e.Scope();
    var stack := p.Stack(k);
    if stack != [] && Closes(stack[|stack| - 1], e) then
      var rest := stack[..|stack| - 1];
      (p.(stacks := if rest == [] then p.stacks - {k} else p.stacks[k := rest]),
       e.(sequence := Top(stack), parent := Top(rest), incomplete := e.incomplete || p.incomplete))
    else
      (if stack == [] then p.(incomplete := true) else p.Drop(k), e.(correlation := Unmatched, incomplete := true))
  }

  /** What finish does to the stacks with a record whose text is complete. */
  function Pair(p: Pairing, e: Event): (Pairing, Event) {
    if e.kind == Lifecycle then (p, e.(correlation := Unmatched))
    else if e.attachment == 0 || e.transaction == 0 then (p, e.(correlation := Unmatched, incomplete := true))
    else if !Identified(e) then (p.Drop(e.Scope()), e.(correlation := Unmatched, incomplete := true))
    else if e.phase == Start then PushStart(p, e)
    else PopFinish(p, e)
  }

  // ---- what holds of every history of emitted events

  ghost function Starts(h: seq<Event>): seq<Event> {
    if h == [] then [] else
    var e := h[|h| - 1];
    Starts(h[..|h| - 1]) + if e.PairedStart() then [e] else []
  }

  /** The finish closes the start: same scope, same object, same statement, same parent. */
  ghost predicate SameExecution(s: Event, f: Event) {
    && s.Scope() == f.Scope() && s.kind == f.kind && s.name == f.name
    && s.statement == f.statement && s.parent == f.parent && s.sequence == f.sequence
  }

  ghost predicate Numbered(h: seq<Event>) {
    forall i :: 0 <= i < |Starts(h)| ==> Starts(h)[i].sequence == i + 1
  }

  ghost predicate FinishesMatch(h: seq<Event>) {
    forall j :: 0 <= j < |h| && h[j].PairedFinish() ==>
      h[j].sequence <= |Starts(h[..j])| && SameExecution(Starts(h[..j])[h[j].sequence - 1], h[j])
  }

  ghost predicate FinishesOnce(h: seq<Event>) {
    forall i, j :: 0 <= i < j < |h| && h[i].PairedFinish() && h[j].PairedFinish() ==> h[i].sequence != h[j].sequence
  }

  /** Records after which the stacks are known to be wrong. */
  ghost predicate Breaks(e: Event) {
    e.kind == Gap || (e.IsExecution() && e.correlation == Unmatched && e.attachment != 0 && e.transaction != 0)
  }

  ghost predicate BreaksAreSticky(h: seq<Event>) {
    forall i, j :: 0 <= i < j < |h| && Breaks(h[i]) ==> h[j].incomplete
  }

  ghost predicate Open(h: seq<Event>, n: nat) {
    1 <= n <= |Starts(h)| && forall j :: 0 <= j < |h| && h[j].PairedFinish() ==> h[j].sequence != n
  }

  ghost predicate FrameOf(h: seq<Event>, k: Scope, stack: seq<Frame>, d: nat)
    requires d < |stack|
  {
    var f := stack[d];
    && Open(h, f.sequence)
    && var s := Starts(h)[f.sequence - 1];
       s.Scope() == k && Closes(f, s) && s.parent == Top(stack[..d])
  }

  ghost predicate StackOf(h: seq<Event>, k: Scope, stack: seq<Frame>) {
    && 1 <= |stack| <= MAX_DEPTH
    && (forall d :: 0 <= d < |stack| ==> FrameOf(h, k, stack, d))
    && (forall c, d :: 0 <= c < d < |stack| ==> stack[c].sequence < stack[d].sequence)
  }

  /** The stacks and the counter agree with what was emitted. */
  ghost predicate Consistent(p: Pairing, h: seq<Event>) {
    && p.sequence == |Starts(h)|
    && |p.stacks| <= MAX_SCOPES
    && (forall k :: k in p.stacks ==> StackOf(h, k, p.stacks[k]))
    && (forall i :: 0 <= i < |h| && Breaks(h[i]) ==> p.incomplete)
  }

  ghost predicate WellPaired(h: seq<Event>) {
    Numbered(h) && FinishesMatch(h) && FinishesOnce(h) && BreaksAreSticky(h)
  }

  ghost predicate Paired(p: Pairing, h: seq<Event>) {
    Consistent(p, h) && WellPaired(h)
  }

  // ---- nesting

  ghost predicate SameScope(h: seq<Event>, e: Event) {
    e.parent <= |Starts(h)| && e.parent != 0 && Starts(h)[e.parent - 1].Scope() == e.Scope()
  }

  /** A start whose parent has finished has finished: nothing outlives what it runs in. */
  ghost predicate ChildrenFinishFirst(h: seq<Event>) {
    forall i :: 0 <= i < |Starts(h)| && Starts(h)[i].parent != 0 ==>
      SameScope(h, Starts(h)[i]) && (Open(h, i + 1) ==> Open(h, Starts(h)[i].parent))
  }

  /** A start runs in one that was open in front of it, in the same scope. */
  ghost predicate ParentsOpen(h: seq<Event>) {
    forall j :: 0 <= j < |h| && h[j].PairedStart() && h[j].parent != 0 ==>
      Open(h[..j], h[j].parent) && SameScope(h[..j], h[j])
  }

  /** Only executions are numbered, and they start or finish. */
  ghost predicate PhaseOk(e: Event) {
    (e.IsExecution() ==> e.phase == Start || e.phase == Finish) && (e.sequence > 0 ==> e.IsExecution())
  }

  ghost predicate Phased(h: seq<Event>) {
    forall j :: 0 <= j < |h| ==> PhaseOk(h[j])
  }

  ghost predicate OnStack(stack: seq<Frame>, n: nat) {
    exists d :: 0 <= d < |stack| && stack[d].sequence == n
  }

  ghost predicate BesideParent(stack: seq<Frame>, parent: nat, n: nat) {
    parent != 0 && OnStack(stack, parent) ==> OnStack(stack, n)
  }

  /** While a start is on its stack, so are the open starts in it. */
  ghost predicate ChildrenOnStack(p: Pairing, h: seq<Event>) {
    forall i :: 0 <= i < |Starts(h)| && Open(h, i + 1) ==>
      BesideParent(p.Stack(Starts(h)[i].Scope()), Starts(h)[i].parent, i + 1)
  }

  /** Nothing ever outlived what it ran in. */
  ghost predicate AlwaysNested(h: seq<Event>) {
    forall n :: 0 <= n <= |h| ==> ChildrenFinishFirst(h[..n])
  }

  ghost predicate Nested(p: Pairing, h: seq<Event>) {
    ChildrenFinishFirst(h) && AlwaysNested(h) && ParentsOpen(h) && Phased(h) && ChildrenOnStack(p, h)
  }

  ghost predicate Safe(p: Pairing, h: seq<Event>) {
    Paired(p, h) && Nested(p, h)
  }

  lemma EmptyIsSafe()
    ensures Safe(EMPTY, [])
  {
  }

  /** A record that finish may be given: not numbered yet, and incomplete if something was lost before it. */
  ghost predicate Unpaired(p: Pairing, e: Event) {
    && e.kind != Gap && (e.IsExecution() ==> e.phase == Start || e.phase == Finish) && e.sequence == 0 && e.parent == 0
    && e.correlation == Heuristic && (p.incomplete ==> e.incomplete)
  }

  lemma StartsAppend(h: seq<Event>, e: Event)
    ensures Starts(h + [e]) == Starts(h) + if e.PairedStart() then [e] else []
  {
  }

  /** Frames keep describing open starts when an event is added that finishes none of them. */
  lemma StackSurvives(h: seq<Event>, e: Event, k: Scope, stack: seq<Frame>)
    requires StackOf(h, k, stack)
    requires e.PairedFinish() ==> forall d :: 0 <= d < |stack| ==> stack[d].sequence != e.sequence
    ensures StackOf(h + [e], k, stack)
  {
    StartsAppend(h, e);
    forall d | 0 <= d < |stack| ensures FrameOf(h + [e], k, stack, d) {
      assert FrameOf(h, k, stack, d);
    }
  }

  lemma StickyAppend(p: Pairing, h: seq<Event>, e: Event)
    requires Paired(p, h) && (p.incomplete ==> e.incomplete)
    ensures BreaksAreSticky(h + [e])
  {
  }

  lemma OnceAppend(h: seq<Event>, e: Event)
    requires FinishesOnce(h) && (e.PairedFinish() ==> Open(h, e.sequence))
    ensures FinishesOnce(h + [e])
  {
    hide Starts;
  }

  lemma FinishesAppend(h: seq<Event>, e: Event)
    requires FinishesMatch(h) && FinishesOnce(h)
    requires e.PairedFinish() ==> Open(h, e.sequence) && SameExecution(Starts(h)[e.sequence - 1], e)
    ensures FinishesMatch(h + [e]) && FinishesOnce(h + [e])
  {
    hide Starts, SameExecution, FinishesOnce;
    OnceAppend(h, e);
    var g := h + [e];
    forall j | 0 <= j < |g| && g[j].PairedFinish()
      ensures g[j].sequence <= |Starts(g[..j])| && SameExecution(Starts(g[..j])[g[j].sequence - 1], g[j])
    {
      assert g[..j] == h[..j];
      if j == |h| {
        assert h[..j] == h;
      }
    }
  }

  lemma OpenAppend(h: seq<Event>, e: Event, n: nat)
    ensures Open(h + [e], n) <==>
      && (Open(h, n) || (e.PairedStart() && n == |Starts(h)| + 1 && Open(h + [e], n)))
      && !(e.PairedFinish() && e.sequence == n)
  {
  }

  lemma HistoryAppend(h: seq<Event>, e: Event)
    requires ParentsOpen(h) && Phased(h) && PhaseOk(e)
    requires e.PairedStart() && e.parent != 0 ==> Open(h, e.parent) && SameScope(h, e)
    requires AlwaysNested(h) && ChildrenFinishFirst(h + [e])
    ensures ParentsOpen(h + [e]) && Phased(h + [e]) && AlwaysNested(h + [e])
  {
    hide Open, SameScope, ChildrenFinishFirst;
    var g := h + [e];
    forall n | 0 <= n <= |g| ensures ChildrenFinishFirst(g[..n]) {
      if n <= |h| {
        assert g[..n] == h[..n];
      } else {
        assert g[..n] == g;
      }
    }
    forall j | 0 <= j < |g| && g[j].PairedStart() && g[j].parent != 0
      ensures Open(g[..j], g[j].parent) && SameScope(g[..j], g[j])
    {
      assert g[..j] == h[..j];
      if j == |h| {
        assert h[..j] == h;
      }
    }
  }

  /** Appending an event that is neither a start nor a finish keeps the nesting, also when stacks go. */
  lemma NestedUnpaired(p: Pairing, h: seq<Event>, q: Pairing, e: Event)
    requires Nested(p, h) && e.sequence == 0 && (e.IsExecution() ==> e.phase == Start || e.phase == Finish)
    requires forall k :: k in q.stacks ==> k in p.stacks && q.stacks[k] == p.stacks[k]
    ensures Nested(q, h + [e])
  {
    hide Starts, Open, OnStack;
    StartsAppend(h, e);
    forall n: nat ensures Open(h + [e], n) <==> Open(h, n) {
      OpenAppend(h, e, n);
    }
    forall n: nat ensures !OnStack([], n) {
      EmptyStack(n);
    }
    HistoryAppend(h, e);
  }

  lemma EmptyStack(n: nat)
    ensures !OnStack([], n)
  {
  }

  lemma NestedStart(p: Pairing, h: seq<Event>, e: Event, f: Frame)
    requires Nested(p, h) && e.PairedStart() && e.sequence == |Starts(h)| + 1 && f.sequence == e.sequence
    requires e.parent == Top(p.Stack(e.Scope()))
    requires e.parent != 0 ==> Open(h, e.parent) && SameScope(h, e)
    ensures Nested(p.(sequence := e.sequence, stacks := p.stacks[e.Scope() := p.Stack(e.Scope()) + [f]]), h + [e])
  {
    hide Starts, Open, OnStack, ParentsOpen, Phased;
    StartsAppend(h, e);
    var g := h + [e];
    var q := p.(sequence := e.sequence, stacks := p.stacks[e.Scope() := p.Stack(e.Scope()) + [f]]);
    forall i | 0 <= i < |Starts(g)| && Starts(g)[i].parent != 0
      ensures SameScope(g, Starts(g)[i]) && (Open(g, i + 1) ==> Open(g, Starts(g)[i].parent))
    {
      OpenAppend(h, e, i + 1);
      OpenAppend(h, e, Starts(g)[i].parent);
      assert i < |Starts(h)| ==> Starts(g)[i] == Starts(h)[i] && SameScope(h, Starts(h)[i]);
    }
    forall i | 0 <= i < |Starts(g)| && Open(g, i + 1)
      ensures BesideParent(q.Stack(Starts(g)[i].Scope()), Starts(g)[i].parent, i + 1)
    {
      OpenAppend(h, e, i + 1);
      PushedOnStack(p.Stack(e.Scope()), f, i + 1);
      PushedOnStack(p.Stack(e.Scope()), f, Starts(g)[i].parent);
      if i < |Starts(h)| {
        assert Starts(g)[i] == Starts(h)[i];
        assert Starts(h)[i].parent != 0 ==> SameScope(h, Starts(h)[i]);
      }
    }
    HistoryAppend(h, e);
  }

  lemma PushedOnStack(stack: seq<Frame>, f: Frame, n: nat)
    ensures OnStack(stack + [f], n) <==> OnStack(stack, n) || f.sequence == n
  {
    var longer := stack + [f];
    if OnStack(stack, n) {
      var d :| 0 <= d < |stack| && stack[d].sequence == n;
      assert longer[d].sequence == n;
    }
    assert longer[|stack|] == f;
  }

  /** A start right above the top of the stack would have to be above itself. */
  lemma NothingAboveTop(h: seq<Event>, k: Scope, stack: seq<Frame>, i: nat)
    requires StackOf(h, k, stack) && i < |Starts(h)| && OnStack(stack, i + 1)
    ensures Starts(h)[i].parent != Top(stack) || Top(stack) == 0
  {
    hide Starts, Open;
    var d :| 0 <= d < |stack| && stack[d].sequence == i + 1;
    assert FrameOf(h, k, stack, d);
    if d > 0 {
      assert Top(stack[..d]) == stack[d - 1].sequence;
    }
  }

  lemma NestedFinish(p: Pairing, h: seq<Event>, q: Pairing, e: Event)
    requires Nested(p, h) && e.PairedFinish() && e.phase == Finish
    requires e.Scope() in p.stacks && StackOf(h, e.Scope(), p.stacks[e.Scope()])
    requires var stack := p.stacks[e.Scope()];
      e.sequence == Top(stack) && q.Stack(e.Scope()) == stack[..|stack| - 1]
    requires e.sequence <= |Starts(h)| && Starts(h)[e.sequence - 1].Scope() == e.Scope()
    requires forall k :: k != e.Scope() ==> q.Stack(k) == p.Stack(k)
    ensures Nested(q, h + [e])
  {
    hide Starts, Open, OnStack, ParentsOpen, Phased, StackOf;
    StartsAppend(h, e);
    var g, k := h + [e], e.Scope();
    var stack := p.stacks[k];
    PoppedOnStack(h, k, stack);
    forall i | 0 <= i < |Starts(g)| && Starts(g)[i].parent != 0
      ensures SameScope(g, Starts(g)[i]) && (Open(g, i + 1) ==> Open(g, Starts(g)[i].parent))
    {
      assert SameScope(h, Starts(h)[i]);
      OpenAppend(h, e, i + 1);
      OpenAppend(h, e, Starts(g)[i].parent);
      if Open(g, i + 1) && Starts(g)[i].parent == e.sequence {
        NothingAboveTop(h, k, stack, i);
      }
    }
    forall i | 0 <= i < |Starts(g)| && Open(g, i + 1)
      ensures BesideParent(q.Stack(Starts(g)[i].Scope()), Starts(g)[i].parent, i + 1)
    {
      OpenAppend(h, e, i + 1);
    }
    HistoryAppend(h, e);
  }

  lemma PoppedOnStack(h: seq<Event>, k: Scope, stack: seq<Frame>)
    requires StackOf(h, k, stack)
    ensures OnStack(stack, Top(stack)) && 1 <= Top(stack) <= |Starts(h)|
    ensures forall n: nat :: OnStack(stack[..|stack| - 1], n) ==> OnStack(stack, n)
    ensures forall n: nat :: OnStack(stack, n) && n != Top(stack) ==> OnStack(stack[..|stack| - 1], n)
  {
    hide Starts;
    var rest := stack[..|stack| - 1];
    assert FrameOf(h, k, stack, |stack| - 1);
    forall n: nat | OnStack(rest, n) ensures OnStack(stack, n) {
      var d :| 0 <= d < |rest| && rest[d].sequence == n;
      assert stack[d].sequence == n;
    }
    forall n: nat | OnStack(stack, n) && n != Top(stack) ensures OnStack(rest, n) {
      var d :| 0 <= d < |stack| && stack[d].sequence == n;
      assert rest[d].sequence == n;
    }
  }

  /** An event that neither opens nor closes anything, after which some stacks may be gone. */
  lemma AppendUnpaired(p: Pairing, h: seq<Event>, q: Pairing, e: Event)
    requires Paired(p, h) && e.sequence == 0
    requires q.sequence == p.sequence && |q.stacks| <= |p.stacks|
    requires forall k :: k in q.stacks ==> k in p.stacks && q.stacks[k] == p.stacks[k]
    requires (p.incomplete ==> e.incomplete && q.incomplete) && (Breaks(e) ==> q.incomplete)
    ensures Paired(q, h + [e])
  {
    hide Starts, StackOf, FinishesMatch, FinishesOnce;
    StartsAppend(h, e);
    StickyAppend(p, h, e);
    FinishesAppend(h, e);
    NumberedAppend(h, e);
    forall k | k in q.stacks ensures StackOf(h + [e], k, q.stacks[k]) {
      StackSurvives(h, e, k, q.stacks[k]);
    }
  }

  lemma NumberedAppend(h: seq<Event>, e: Event)
    requires Numbered(h) && (e.PairedStart() ==> e.sequence == |Starts(h)| + 1)
    ensures Numbered(h + [e])
  {
  }

  /** A start is pushed on the stack of its scope, whose top becomes its parent. */
  lemma AppendStart(p: Pairing, h: seq<Event>, e: Event)
    requires Paired(p, h) && e.PairedStart() && e.sequence == p.sequence + 1 && (p.incomplete ==> e.incomplete)
    requires !TooDeep(p, e.Scope()) && e.parent == Top(p.Stack(e.Scope())) && !Breaks(e)
    ensures var k := e.Scope(); var f := Frame(e.kind, e.name, e.sequence, e.statement);
      Paired(p.(sequence := e.sequence, stacks := p.stacks[k := p.Stack(k) + [f]]), h + [e])
  {
    var k, g, f := e.Scope(), h + [e], Frame(e.kind, e.name, e.sequence, e.statement);
    var q := p.(sequence := e.sequence, stacks := p.stacks[k := p.Stack(k) + [f]]);
    hide Starts, StackOf, FinishesMatch, FinishesOnce, Numbered;
    StartsAppend(h, e);
    StickyAppend(p, h, e);
    FinishesAppend(h, e);
    NumberedAppend(h, e);
    forall c | c in q.stacks ensures StackOf(g, c, q.stacks[c]) {
      if c == k {
        PushedStack(h, e, p.Stack(k));
      } else {
        StackSurvives(h, e, c, q.stacks[c]);
      }
    }
    PushedSize(p.stacks, k, p.Stack(k) + [f]);
  }

  lemma PushedSize(m: map<Scope, seq<Frame>>, k: Scope, stack: seq<Frame>)
    ensures |m[k := stack]| == |m| + if k in m then 0 else 1
  {
  }

  lemma PushedStack(h: seq<Event>, e: Event, stack: seq<Frame>)
    requires stack == [] || StackOf(h, e.Scope(), stack)
    requires |stack| < MAX_DEPTH && e.PairedStart() && e.sequence == |Starts(h)| + 1 && e.parent == Top(stack)
    requires FinishesMatch(h)
    ensures StackOf(h + [e], e.Scope(), stack + [Frame(e.kind, e.name, e.sequence, e.statement)])
  {
    var k, g, longer := e.Scope(), h + [e], stack + [Frame(e.kind, e.name, e.sequence, e.statement)];
    StartsAppend(h, e);
    if stack != [] {
      StackSurvives(h, e, k, stack);
    }
    forall d | 0 <= d < |longer| ensures FrameOf(g, k, longer, d) {
      assert longer[..d] == stack[..d];
      if d < |stack| {
        assert FrameOf(g, k, stack, d);
      } else {
        assert stack[..d] == stack;
        NewestIsOpen(h, e);
      }
    }
    assert forall d :: 0 <= d < |stack| ==> Open(h, stack[d].sequence) by {
      forall d | 0 <= d < |stack| ensures Open(h, stack[d].sequence) {
        assert FrameOf(h, k, stack, d);
      }
    }
  }

  lemma NewestIsOpen(h: seq<Event>, e: Event)
    requires FinishesMatch(h) && e.PairedStart() && e.sequence == |Starts(h)| + 1
    ensures Open(h + [e], e.sequence)
  {
    StartsAppend(h, e);
    forall j | 0 <= j < |h| && h[j].PairedFinish() ensures h[j].sequence != e.sequence {
      StartsPrefix(h, j);
    }
  }

  lemma {:induction false} StartsPrefix(h: seq<Event>, j: nat)
    requires j <= |h|
    ensures |Starts(h[..j])| <= |Starts(h)|
    decreases |h|
  {
    if j < |h| {
      StartsPrefix(h[..|h| - 1], j);
      assert h[..|h| - 1][..j] == h[..j];
    } else {
      assert h[..j] == h;
    }
  }

  lemma TopIsClosed(h: seq<Event>, e: Event, stack: seq<Frame>)
    requires StackOf(h, e.Scope(), stack) && Closes(stack[|stack| - 1], e) && Numbered(h)
    requires e.sequence == Top(stack) && e.parent == Top(stack[..|stack| - 1])
    ensures 1 <= e.sequence <= |Starts(h)| && Open(h, e.sequence) && SameExecution(Starts(h)[e.sequence - 1], e)
  {
    hide Starts;
    assert FrameOf(h, e.Scope(), stack, |stack| - 1);
  }

  /** A finish pops its start off the stack of its scope. */
  lemma AppendFinish(p: Pairing, h: seq<Event>, e: Event, rest: seq<Frame>)
    requires Paired(p, h) && e.PairedFinish() && (p.incomplete ==> e.incomplete) && !Breaks(e)
    requires var stack := p.Stack(e.Scope());
      stack != [] && rest == stack[..|stack| - 1] && Closes(stack[|stack| - 1], e)
      && e.sequence == Top(stack) && e.parent == Top(rest)
    ensures var k := e.Scope();
      Paired(p.(stacks := if rest == [] then p.stacks - {k} else p.stacks[k := rest]), h + [e])
  {
    hide Starts, Open, StackOf, FinishesMatch, FinishesOnce, Numbered, SameExecution, BreaksAreSticky, Breaks, Closes;
    var k := e.Scope();
    var stack := p.Stack(k);
    var q := p.(stacks := if rest == [] then p.stacks - {k} else p.stacks[k := rest]);
    TopIsClosed(h, e, stack);
    StartsAppend(h, e);
    StickyAppend(p, h, e);
    FinishesAppend(h, e);
    NumberedAppend(h, e);
    forall c | c in q.stacks ensures StackOf(h + [e], c, q.stacks[c]) {
      if c == k {
        PoppedStack(h, k, stack);
        StackSurvives(h, e, k, rest);
      } else {
        OtherStack(h, k, stack, c, q.stacks[c]);
        StackSurvives(h, e, c, q.stacks[c]);
      }
    }
    PushedSize(p.stacks, k, rest);
    RemovedSize(p.stacks, k);
  }

  lemma RemovedSize(m: map<Scope, seq<Frame>>, k: Scope)
    ensures |m - {k}| <= |m|
  {
  }

  lemma PoppedStack(h: seq<Event>, k: Scope, stack: seq<Frame>)
    requires StackOf(h, k, stack) && |stack| > 1
    ensures StackOf(h, k, stack[..|stack| - 1])
    ensures forall d :: 0 <= d < |stack| - 1 ==> stack[d].sequence != Top(stack)
  {
    var rest := stack[..|stack| - 1];
    forall d | 0 <= d < |rest| ensures FrameOf(h, k, rest, d) {
      assert FrameOf(h, k, stack, d);
      assert rest[..d] == stack[..d];
    }
  }

  /** A start stands in one scope only, so it is on one stack only. */
  lemma OtherStack(h: seq<Event>, k: Scope, stack: seq<Frame>, c: Scope, other: seq<Frame>)
    requires StackOf(h, k, stack) && StackOf(h, c, other) && c != k
    ensures forall d :: 0 <= d < |other| ==> other[d].sequence != Top(stack)
  {
    forall d | 0 <= d < |other| ensures other[d].sequence != Top(stack) {
      assert FrameOf(h, c, other, d) && FrameOf(h, k, stack, |stack| - 1);
    }
  }

  lemma KeepsUnpaired(p: Pairing, h: seq<Event>, q: Pairing, e: Event)
    requires Safe(p, h) && e.sequence == 0 && (e.IsExecution() ==> e.phase == Start || e.phase == Finish)
    requires q.sequence == p.sequence && |q.stacks| <= |p.stacks|
    requires forall k :: k in q.stacks ==> k in p.stacks && q.stacks[k] == p.stacks[k]
    requires (p.incomplete ==> e.incomplete && q.incomplete) && (Breaks(e) ==> q.incomplete)
    ensures Safe(q, h + [e])
  {
    hide Paired, Nested;
    AppendUnpaired(p, h, q, e);
    NestedUnpaired(p, h, q, e);
  }

  lemma AppendGap(p: Pairing, h: seq<Event>, e: Event)
    requires Safe(p, h) && e.kind == Gap && e.sequence == 0 && e.incomplete
    ensures Safe(p.Lose(), h + [e])
  {
    hide Paired, Nested;
    KeepsUnpaired(p, h, p.Lose(), e);
  }

  /** Every record finish handles keeps every promise about the history, even when its caller marks it incomplete. */
  lemma PairKeepsSafe(p: Pairing, h: seq<Event>, e: Event, f: Event)
    requires Safe(p, h) && Unpaired(p, e)
    requires f == Pair(p, e).1.(incomplete := f.incomplete) && (Pair(p, e).1.incomplete ==> f.incomplete)
    ensures Safe(Pair(p, e).0, h + [f])
  {
    hide Safe;
    var (q, out) := Pair(p, e);
    var k := e.Scope();
    if e.kind == Lifecycle || !Identified(e) {
      RemovedSize(p.stacks, k);
      KeepsUnpaired(p, h, q, f);
    } else if e.phase == Start {
      StartKeepsSafe(p, h, e, f);
    } else {
      FinishKeepsSafe(p, h, e, f);
    }
  }

  lemma TopIsOpen(h: seq<Event>, k: Scope, stack: seq<Frame>)
    requires StackOf(h, k, stack)
    ensures 1 <= Top(stack) <= |Starts(h)| && Open(h, Top(stack)) && Starts(h)[Top(stack) - 1].Scope() == k
  {
    hide Starts;
    assert FrameOf(h, k, stack, |stack| - 1);
  }

  lemma LoseKeepsSafe(p: Pairing, h: seq<Event>)
    requires Safe(p, h)
    ensures Safe(p.Lose().(overflow := true), h)
  {
  }

  lemma StackIsSound(p: Pairing, h: seq<Event>, k: Scope)
    requires Safe(p, h)
    ensures p.sequence == |Starts(h)|
    ensures p.Stack(k) == [] || (k in p.stacks && StackOf(h, k, p.Stack(k)))
  {
    hide StackOf, WellPaired, Nested;
  }

  lemma StartKeepsSafe(p: Pairing, h: seq<Event>, e: Event, f: Event)
    requires Safe(p, h) && Unpaired(p, e) && e.IsExecution() && e.phase == Start
    requires f == PushStart(p, e).1.(incomplete := f.incomplete) && (PushStart(p, e).1.incomplete ==> f.incomplete)
    ensures Safe(PushStart(p, e).0, h + [f])
  {
    hide Paired, Nested, StackOf, Starts, Open;
    var q := if TooDeep(p, e.Scope()) then p.Lose().(overflow := true) else p;
    LoseKeepsSafe(p, h);
    StackIsSound(q, h, e.Scope());
    AppendStart(q, h, f);
    if q.Stack(e.Scope()) != [] {
      TopIsOpen(h, e.Scope(), q.Stack(e.Scope()));
    }
    NestedStart(q, h, f, Frame(f.kind, f.name, f.sequence, f.statement));
  }

  lemma FinishKeepsSafe(p: Pairing, h: seq<Event>, e: Event, f: Event)
    requires Safe(p, h) && Unpaired(p, e) && e.IsExecution() && e.phase != Start
    requires f == PopFinish(p, e).1.(incomplete := f.incomplete) && (PopFinish(p, e).1.incomplete ==> f.incomplete)
    ensures Safe(PopFinish(p, e).0, h + [f])
  {
    hide Paired, Nested, StackOf, Starts, Open;
    var k := e.Scope();
    var stack := p.Stack(k);
    StackIsSound(p, h, k);
    if stack != [] && Closes(stack[|stack| - 1], e) {
      TopIsOpen(h, k, stack);
      AppendFinish(p, h, f, stack[..|stack| - 1]);
      NestedFinish(p, h, PopFinish(p, e).0, f);
    } else {
      RemovedSize(p.stacks, k);
      KeepsUnpaired(p, h, PopFinish(p, e).0, f);
    }
  }

  // ---- the history alone

  /** What the parser promises about everything it has emitted. */
  ghost predicate History(h: seq<Event>) {
    Numbered(h) && FinishesMatch(h) && FinishesOnce(h) && AlwaysNested(h) && ParentsOpen(h) && Phased(h)
  }

  lemma SafeHistory(p: Pairing, h: seq<Event>)
    requires Safe(p, h)
    ensures History(h)
  {
    hide Numbered, FinishesMatch, FinishesOnce, AlwaysNested, ParentsOpen, Phased, Consistent;
  }

  lemma {:induction false} StartsOfPrefix(h: seq<Event>, n: nat)
    requires n <= |h|
    ensures Starts(h[..n]) <= Starts(h)
    decreases |h|
  {
    if n < |h| {
      StartsOfPrefix(h[..|h| - 1], n);
      assert h[..|h| - 1][..n] == h[..n];
    } else {
      assert h[..n] == h;
    }
  }

  /** Whoever has read only part of the history can rely on it as well. */
  lemma HistoryPrefix(h: seq<Event>, n: nat)
    requires History(h) && n <= |h|
    ensures History(h[..n])
  {
    hide Starts, SameExecution, Open, SameScope, ChildrenFinishFirst;
    StartsOfPrefix(h, n);
    var g := h[..n];
    forall j | 0 <= j <= n ensures g[..j] == h[..j] {
    }
  }
}
