/** Bracket matching, defined by counting, and the proof that the parser's stacks compute it. */
module TraceNesting {
  import opened TraceEvents
  import opened TracePairing

  /** Starts minus finishes of scope `k` among the first `n` records. */
  function Depth(recs: seq<Event>, n: nat, k: Scope): int
    requires n <= |recs|
  {
    if n == 0 then 0
    else if recs[n - 1].Scope() != k then Depth(recs, n - 1, k)
    else if recs[n - 1].phase == Start then Depth(recs, n - 1, k) + 1
    else Depth(recs, n - 1, k) - 1
  }

  /** How many of the first `n` records are starts. */
  function Ordinal(recs: seq<Event>, n: nat): nat
    requires n <= |recs|
  {
    if n == 0 then 0 else Ordinal(recs, n - 1) + if recs[n - 1].phase == Start then 1 else 0
  }

  ghost function OpenScopes(recs: seq<Event>, n: nat): set<Scope>
    requires n <= |recs|
  {
    set i | 0 <= i < n && Depth(recs, n, recs[i].Scope()) > 0 :: recs[i].Scope()
  }

  /** Start `i` is still open in front of record `n`: its scope never came back to the depth the start found. */
  ghost predicate OpenAt(recs: seq<Event>, i: nat, n: nat)
    requires n <= |recs|
  {
    && i < n && recs[i].phase == Start
    && forall m :: i < m <= n ==> Depth(recs, m, recs[i].Scope()) > Depth(recs, i, recs[i].Scope())
  }

  /** Start `i` is the innermost one open in the scope of record `n`. */
  ghost predicate Innermost(recs: seq<Event>, i: nat, n: nat)
    requires n < |recs|
  {
    && OpenAt(recs, i, n) && recs[i].Scope() == recs[n].Scope()
    && Depth(recs, i, recs[n].Scope()) == Depth(recs, n, recs[n].Scope()) - 1
  }

  /** Each scope's records are well nested and name the same execution at both ends, within the parser's bounds. */
  ghost predicate WellNested(recs: seq<Event>) {
    && (forall n :: 0 <= n < |recs| ==> recs[n].IsExecution() && Identified(recs[n]) && Unpaired(EMPTY, recs[n]))
    && (forall n :: 0 <= n < |recs| && recs[n].phase == Start ==>
          Depth(recs, n, recs[n].Scope()) < MAX_DEPTH
          && (Depth(recs, n, recs[n].Scope()) == 0 ==> |OpenScopes(recs, n)| < MAX_SCOPES))
    && (forall n :: 0 <= n < |recs| && recs[n].phase != Start ==> Depth(recs, n, recs[n].Scope()) > 0)
    && (forall i, n :: 0 <= i < n < |recs| && recs[n].phase != Start && Innermost(recs, i, n) ==>
          recs[i].kind == recs[n].kind && recs[i].name == recs[n].name && recs[i].statement == recs[n].statement)
  }

  /** The parser's pairing state after the first `n` records, from a fresh parser. */
  function After(recs: seq<Event>, n: nat): Pairing
    requires n <= |recs|
  {
    if n == 0 then EMPTY else Pair(After(recs, n - 1), recs[n - 1]).0
  }

  function Emitted(recs: seq<Event>, n: nat): Event
    requires n < |recs|
  {
    Pair(After(recs, n), recs[n]).1
  }

  /** The events that a fresh parser emits for the records. */
  ghost predicate EmittedFor(recs: seq<Event>, h: seq<Event>) {
    |h| == |recs| && forall n :: 0 <= n < |h| ==> h[n] == Emitted(recs, n)
  }

  function FrameFor(recs: seq<Event>, i: nat): Frame
    requires i < |recs|
  {
    Frame(recs[i].kind, recs[i].name, Ordinal(recs, i + 1), recs[i].statement)
  }

  /** Level `d` of scope `k` holds the open start that found its scope at depth `d`. */
  ghost predicate Level(recs: seq<Event>, n: nat, k: Scope, f: Frame, d: nat)
    requires n <= |recs|
  {
    exists i :: 0 <= i < n && OpenAt(recs, i, n) && recs[i].Scope() == k && Depth(recs, i, k) == d
      && f == FrameFor(recs, i)
  }

  ghost predicate Matches(recs: seq<Event>, n: nat, k: Scope, stack: seq<Frame>)
    requires n <= |recs|
  {
    |stack| == Depth(recs, n, k) && forall d :: 0 <= d < |stack| ==> Level(recs, n, k, stack[d], d)
  }

  /** The stacks are exactly the open starts, level by level. */
  ghost predicate Tracks(recs: seq<Event>, n: nat, p: Pairing)
    requires n <= |recs|
  {
    && p.sequence == Ordinal(recs, n) && !p.incomplete && !p.overflow
    && (forall k :: Matches(recs, n, k, p.Stack(k)))
    && (forall k :: k in p.stacks ==> p.stacks[k] != [])
  }

  lemma {:induction false} ScopeSeen(recs: seq<Event>, n: nat, k: Scope)
    requires n <= |recs| && Depth(recs, n, k) > 0
    ensures exists i :: 0 <= i < n && recs[i].Scope() == k
  {
    if recs[n - 1].Scope() != k {
      ScopeSeen(recs, n - 1, k);
    }
  }

  lemma StacksAreOpenScopes(recs: seq<Event>, n: nat, p: Pairing)
    requires n <= |recs| && Tracks(recs, n, p)
    ensures p.stacks.Keys == OpenScopes(recs, n)
  {
    forall k ensures k in p.stacks <==> k in OpenScopes(recs, n) {
      assert Matches(recs, n, k, p.Stack(k));
      if k in p.stacks {
        ScopeSeen(recs, n, k);
      }
    }
  }

  lemma OtherScopes(recs: seq<Event>, n: nat, p: Pairing, q: Pairing)
    requires n < |recs| && Tracks(recs, n, p)
    requires forall k :: k != recs[n].Scope() ==> q.Stack(k) == p.Stack(k)
    ensures forall k :: k != recs[n].Scope() ==> Matches(recs, n + 1, k, q.Stack(k))
  {
  }

  lemma NotTooDeep(recs: seq<Event>, n: nat, p: Pairing)
    requires WellNested(recs) && n < |recs| && Tracks(recs, n, p) && recs[n].phase == Start
    ensures !TooDeep(p, recs[n].Scope())
  {
    hide Depth, OpenAt, OpenScopes, Ordinal;
    assert Matches(recs, n, recs[n].Scope(), p.Stack(recs[n].Scope()));
    StacksAreOpenScopes(recs, n, p);
    assert |p.stacks| == |p.stacks.Keys|;
  }

  lemma PushedMatches(recs: seq<Event>, n: nat, stack: seq<Frame>)
    requires n < |recs| && recs[n].phase == Start && Matches(recs, n, recs[n].Scope(), stack)
    ensures Matches(recs, n + 1, recs[n].Scope(), stack + [FrameFor(recs, n)])
  {
  }

  lemma PushTracks(recs: seq<Event>, n: nat, p: Pairing)
    requires WellNested(recs) && n < |recs| && Tracks(recs, n, p) && recs[n].phase == Start
    ensures Tracks(recs, n + 1, PushStart(p, recs[n]).0)
  {
    hide Depth, OpenAt, Matches, WellNested;
    NotTooDeep(recs, n, p);
    var k, q := recs[n].Scope(), PushStart(p, recs[n]).0;
    OtherScopes(recs, n, p, q);
    PushedMatches(recs, n, p.Stack(k));
    assert q.Stack(k) == p.Stack(k) + [FrameFor(recs, n)];
  }

  /** The top of a scope's stack is the innermost open start of that scope. */
  lemma TopIsInnermost(recs: seq<Event>, n: nat, stack: seq<Frame>) returns (i: nat)
    requires n < |recs| && Matches(recs, n, recs[n].Scope(), stack) && stack != []
    ensures i < n && Innermost(recs, i, n) && stack[|stack| - 1] == FrameFor(recs, i)
  {
    var k, d := recs[n].Scope(), |stack| - 1;
    assert Level(recs, n, k, stack[d], d);
    i :| 0 <= i < n && OpenAt(recs, i, n) && recs[i].Scope() == k && Depth(recs, i, k) == d
      && stack[d] == FrameFor(recs, i);
  }

  lemma InnermostIsUnique(recs: seq<Event>, n: nat, i: nat, j: nat)
    requires n < |recs| && Innermost(recs, i, n) && Innermost(recs, j, n)
    ensures i == j
  {
  }

  /** In a well-nested stream a finish finds its start on top. */
  lemma FinishCloses(recs: seq<Event>, n: nat, stack: seq<Frame>)
    requires WellNested(recs) && n < |recs| && Matches(recs, n, recs[n].Scope(), stack) && recs[n].phase != Start
    ensures stack != [] && Closes(stack[|stack| - 1], recs[n])
  {
    hide Depth, OpenAt, Ordinal;
    var i := TopIsInnermost(recs, n, stack);
  }

  lemma PoppedMatches(recs: seq<Event>, n: nat, stack: seq<Frame>)
    requires n < |recs| && recs[n].phase != Start && Matches(recs, n, recs[n].Scope(), stack) && stack != []
    ensures Matches(recs, n + 1, recs[n].Scope(), stack[..|stack| - 1])
  {
  }

  lemma PopTracks(recs: seq<Event>, n: nat, p: Pairing)
    requires WellNested(recs) && n < |recs| && Tracks(recs, n, p) && recs[n].phase != Start
    ensures Tracks(recs, n + 1, PopFinish(p, recs[n]).0)
  {
    hide Depth, OpenAt, Matches, WellNested;
    var k, q := recs[n].Scope(), PopFinish(p, recs[n]).0;
    var stack := p.Stack(k);
    FinishCloses(recs, n, stack);
    OtherScopes(recs, n, p, q);
    PoppedMatches(recs, n, stack);
    assert q.Stack(k) == stack[..|stack| - 1];
  }

  lemma EmptyTracks(recs: seq<Event>)
    ensures Tracks(recs, 0, EMPTY)
  {
  }

  lemma PairOfRecord(recs: seq<Event>, n: nat, p: Pairing)
    requires WellNested(recs) && n < |recs|
    ensures Pair(p, recs[n]) == if recs[n].phase == Start then PushStart(p, recs[n]) else PopFinish(p, recs[n])
  {
  }

  lemma StepTracks(recs: seq<Event>, n: nat, p: Pairing)
    requires WellNested(recs) && n < |recs| && Tracks(recs, n, p)
    ensures Tracks(recs, n + 1, Pair(p, recs[n]).0)
  {
    hide Tracks, PushStart, PopFinish, Pair, WellNested;
    PairOfRecord(recs, n, p);
    if recs[n].phase == Start {
      PushTracks(recs, n, p);
    } else {
      PopTracks(recs, n, p);
    }
  }

  lemma {:induction false} RunTracks(recs: seq<Event>, n: nat)
    requires WellNested(recs) && n <= |recs|
    ensures Tracks(recs, n, After(recs, n))
  {
    hide Tracks, Pair, WellNested;
    if n == 0 {
      EmptyTracks(recs);
    } else {
      RunTracks(recs, n - 1);
      StepTracks(recs, n - 1, After(recs, n - 1));
    }
  }

  /** A start is numbered by its rank, and its parent is the innermost start open in its scope. */
  lemma StartIsNumbered(recs: seq<Event>, n: nat)
    requires WellNested(recs) && n < |recs| && recs[n].phase == Start
    ensures var e := Emitted(recs, n);
      && e.sequence == Ordinal(recs, n + 1)
      && (e.parent == 0 <==> Depth(recs, n, recs[n].Scope()) == 0)
      && (forall i :: 0 <= i < n && Innermost(recs, i, n) ==> e.parent == Ordinal(recs, i + 1))
      && e == recs[n].(sequence := e.sequence, parent := e.parent)
  {
    RunTracks(recs, n);
    NotTooDeep(recs, n, After(recs, n));
    ParentOfTop(recs, n, After(recs, n).Stack(recs[n].Scope()));
  }

  lemma {:induction false} OrdinalGrows(recs: seq<Event>, i: nat, n: nat)
    requires i < n <= |recs| && recs[i].phase == Start
    ensures 0 < Ordinal(recs, i + 1) <= Ordinal(recs, n)
  {
    if i + 1 < n {
      OrdinalGrows(recs, i, n - 1);
    }
  }

  lemma DepthIsNatural(recs: seq<Event>, n: nat, k: Scope)
    requires WellNested(recs) && n <= |recs|
    ensures Depth(recs, n, k) >= 0
  {
  }

  lemma ParentOfTop(recs: seq<Event>, n: nat, stack: seq<Frame>)
    requires WellNested(recs) && n < |recs| && Matches(recs, n, recs[n].Scope(), stack)
    ensures Top(stack) == 0 <==> Depth(recs, n, recs[n].Scope()) == 0
    ensures forall i :: 0 <= i < n && Innermost(recs, i, n) ==> Top(stack) == Ordinal(recs, i + 1)
  {
    hide Depth, Ordinal, WellNested;
    if stack == [] {
      forall i | 0 <= i < n ensures !Innermost(recs, i, n) {
        DepthIsNatural(recs, i, recs[n].Scope());
      }
    } else {
      var top := TopIsInnermost(recs, n, stack);
      OrdinalGrows(recs, top, n);
      forall i | 0 <= i < n && Innermost(recs, i, n) ensures i == top {
        InnermostIsUnique(recs, n, i, top);
      }
    }
  }

  /**
   * A finish carries the number and the parent of the start that bracket matching gives it, and nothing else changes.
   */
  lemma FinishIsMatched(recs: seq<Event>, n: nat) returns (i: nat)
    requires WellNested(recs) && n < |recs| && recs[n].phase != Start
    ensures i < n && Innermost(recs, i, n)
    ensures Emitted(recs, n) == recs[n].(sequence := Ordinal(recs, i + 1), parent := Emitted(recs, i).parent)
  {
    RunTracks(recs, n);
    var stack := After(recs, n).Stack(recs[n].Scope());
    FinishCloses(recs, n, stack);
    i := TopIsInnermost(recs, n, stack);
    ParentOfFinish(recs, n, i, stack);
  }

  /** The level below an open start holds the start that was innermost when it came. */
  lemma LevelBelow(recs: seq<Event>, n: nat, i: nat, f: Frame, d: nat) returns (j: nat)
    requires n < |recs| && i < n && Innermost(recs, i, n) && Depth(recs, i, recs[n].Scope()) == d + 1
    requires Level(recs, n, recs[n].Scope(), f, d)
    ensures j < i && Innermost(recs, j, i) && f == FrameFor(recs, j)
  {
    hide Depth, FrameFor;
    var k := recs[n].Scope();
    j :| 0 <= j < n && OpenAt(recs, j, n) && recs[j].Scope() == k && Depth(recs, j, k) == d && f == FrameFor(recs, j);
  }

  lemma InnermostIsBelow(recs: seq<Event>, i: nat, n: nat)
    requires n < |recs| && i < n && Innermost(recs, i, n)
    ensures recs[i].phase == Start && recs[i].Scope() == recs[n].Scope()
    ensures Depth(recs, i, recs[n].Scope()) == Depth(recs, n, recs[n].Scope()) - 1
  {
  }

  /** Below the start that a finish closes stands the parent that start was given. */
  lemma ParentOfFinish(recs: seq<Event>, n: nat, i: nat, stack: seq<Frame>)
    requires WellNested(recs) && n < |recs| && i < n && Innermost(recs, i, n)
    requires Matches(recs, n, recs[n].Scope(), stack) && stack != []
    ensures Top(stack[..|stack| - 1]) == Emitted(recs, i).parent
  {
    hide Depth, WellNested, Innermost, OpenAt, Ordinal, Emitted;
    InnermostIsBelow(recs, i, n);
    StartIsNumbered(recs, i);
    if |stack| > 1 {
      var k, d := recs[n].Scope(), |stack| - 2;
      assert Level(recs, n, k, stack[d], d);
      assert Depth(recs, n, k) == |stack|;
      assert Depth(recs, i, k) == d + 1;
      var j := LevelBelow(recs, n, i, stack[|stack| - 2], |stack| - 2);
    }
  }
}
