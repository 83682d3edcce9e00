/** The parser and the span runtime joined by a channel that loses nothing and keeps the order (trace/runtime.go). */
module SpanPipeline {
  import opened Utf8
  import opened TraceEvents
  import TracePairing
  import opened TraceMachine
  import opened TraceRuns
  import opened TraceParser
  import opened SpanLinks
  import opened SpanLog
  import opened SpanMachine
  import opened SpanRegistry
  import opened SpanConsumer

  ghost predicate Trusted(h: seq<Event>) {
    TracePairing.History(h) && forall i :: 0 <= i < |h| ==> Valid(h[i].plan)
  }

  /** What the parser keeps is what the consumer relies on. */
  lemma ParserIsTrusted(s: State, h: seq<Event>)
    requires ParserOk(s, h)
    ensures Trusted(h)
  {
  }

  lemma NextIsTrusted(h: seq<Event>, n: nat)
    requires Trusted(h) && n < |h|
    ensures TracePairing.History(h[..n] + [h[n]]) && Valid(h[n].plan)
  {
    hide TracePairing.History, Valid;
    TracePairing.HistoryPrefix(h, n + 1);
    assert h[..n + 1] == h[..n] + [h[n]];
  }

  lemma OneMore(before: seq<Event>, out: seq<Event>, h: seq<Event>, i: nat)
    requires before + out == h && i < |out|
    ensures h[..|before| + i] == before + out[..i] && h[|before| + i] == out[i]
    ensures before + out[..i] + [out[i]] == before + out[..i + 1]
  {
  }

  /** The consumer made one turn for each event, in order. */
  ghost predicate TookAll(before: Run, after: Run, out: seq<Event>) {
    && |after.turns| == |before.turns| + |out| && before.turns <= after.turns && before.forests <= after.forests
    && forall k :: |before.turns| <= k < |after.turns| ==> TookEvent(after.turns[k], out[k - |before.turns|])
  }

  ghost predicate TookEvent(t: Turn, e: Event) {
    t.cause.Took? && t.cause.e == e
  }

  /** The run but its last turn. */
  ghost function ButLast(r: Run): Run
    requires r.turns != [] && |r.forests| == |r.turns| + 1
  {
    Run(r.turns[..|r.turns| - 1], r.forests[..|r.turns|])
  }

  lemma TookNone(r: Run)
    ensures TookAll(r, r, [])
  {
  }

  lemma TookOneMore(before: Run, middle: Run, after: Run, out: seq<Event>, i: nat)
    requires i < |out| && TookAll(before, middle, out[..i]) && OneTurnMore(middle, after)
    requires Last(after).cause.Took? && Last(after).cause.e == out[i]
    ensures TookAll(before, after, out[..i + 1])
  {
    var n := |before.turns|;
    forall k | n <= k < |after.turns| ensures TookEvent(after.turns[k], out[..i + 1][k - n]) {
      if k < n + i {
        assert TookEvent(middle.turns[k], out[..i][k - n]);
      }
    }
  }

  lemma ThenOver(before: Run, middle: Run, after: Run, out: seq<Event>)
    requires TookAll(before, middle, out) && OneTurnMore(middle, after)
    requires |middle.forests| == |middle.turns| + 1 && |after.forests| == |after.turns| + 1
    ensures TookAll(before, ButLast(after), out)
  {
    assert ButLast(after).turns == middle.turns && ButLast(after).forests == middle.forests;
  }

  lemma RunIsLong(c: Config, acts: seq<Act>, r: Run, consumed: seq<Event>, now: Forest, exports: seq<Export>)
    requires Explains(c, acts, r, consumed, now, exports)
    ensures |r.forests| == |r.turns| + 1
  {
    hide TurnOk, AllLinked, EventsOf, SentBy, Jobs;
  }

  /** Everything the parser has emitted and the consumer has not yet read goes over, one event at a time. */
  method Deliver(spans: SpanRuntime, out: seq<Event>, ghost h: seq<Event>)
    requires spans.Ok() && spans.consumed + out == h && Trusted(h)
    modifies spans
    ensures spans.Ok() && spans.consumed == h && old(spans.exports) <= spans.exports
    ensures TookAll(old(spans.run), spans.run, out)
  {
    hide *;
    ghost var before := spans.consumed;
    var i := 0;
    assert before + out[..0] == before && out[..0] == [];
    TookNone(spans.run);
    while i < |out|
      invariant i <= |out| && spans.Ok() && spans.consumed == before + out[..i]
      invariant old(spans.exports) <= spans.exports && TookAll(old(spans.run), spans.run, out[..i])
    {
      NextIsTrusted(h, |before| + i);
      OneMore(before, out, h, i);
      ghost var middle := spans.run;
      spans.TakeEvent(out[i]);
      TookOneMore(old(spans.run), middle, spans.run, out, i);
      i := i + 1;
    }
    assert out[..i] == out;
  }

  /**
   * A chunk of the wire, from the parser through to the spans: one turn of the consumer for each event it completes.
   */
  method Feed(parser: Parser, spans: SpanRuntime, wire: Bytes)
    requires parser.Valid() && spans.Ok() && spans.consumed == parser.emitted
    modifies parser, spans
    ensures parser.Valid() && spans.Ok() && spans.consumed == parser.emitted
    ensures old(parser.emitted) <= parser.emitted && old(spans.exports) <= spans.exports
    ensures TookAll(old(spans.run), spans.run, parser.emitted[|old(parser.emitted)|..])
  {
    hide ParserOk, RegistryOk, Trusted, TookAll, Explains;
    var out := parser.Feed(wire);
    ParserIsTrusted(parser.Now(), parser.emitted);
    Deliver(spans, out, parser.emitted);
    assert parser.emitted[|old(parser.emitted)|..] == out;
  }

  /** A quiet stream releases a finished record. */
  method Idle(parser: Parser, spans: SpanRuntime)
    requires parser.Valid() && spans.Ok() && spans.consumed == parser.emitted
    modifies parser, spans
    ensures parser.Valid() && spans.Ok() && spans.consumed == parser.emitted
    ensures old(parser.emitted) <= parser.emitted && old(spans.exports) <= spans.exports
    ensures TookAll(old(spans.run), spans.run, parser.emitted[|old(parser.emitted)|..])
  {
    hide ParserOk, RegistryOk, Trusted, TookAll, Explains;
    var out := parser.FlushFinished();
    ParserIsTrusted(parser.Now(), parser.emitted);
    Deliver(spans, out, parser.emitted);
    assert parser.emitted[|old(parser.emitted)|..] == out;
  }

  /** The stream ends: the parser gives up what it has, and the consumer sends or drops every tree in a last turn. */
  method End(parser: Parser, spans: SpanRuntime)
    requires parser.Valid() && spans.Ok() && spans.consumed == parser.emitted
    modifies parser, spans
    ensures parser.Valid() && spans.Ok() && spans.consumed == parser.emitted
    ensures spans.live == {} && spans.registrations == map[] && !spans.running
    ensures old(parser.emitted) <= parser.emitted && old(spans.exports) <= spans.exports
    ensures spans.run.turns != [] && |spans.run.forests| == |spans.run.turns| + 1 && Last(spans.run).cause.StreamOver?
    ensures TookAll(old(spans.run), ButLast(spans.run), parser.emitted[|old(parser.emitted)|..])
  {
    hide ParserOk, RegistryOk, Trusted, TookAll, Explains;
    var out := parser.Flush();
    ParserIsTrusted(parser.Now(), parser.emitted);
    Deliver(spans, out, parser.emitted);
    RunIsLong(spans.Settings(), spans.acts, spans.run, spans.consumed, spans.Now(), spans.exports);
    ghost var middle := spans.run;
    spans.StreamEnd();
    RunIsLong(spans.Settings(), spans.acts, spans.run, spans.consumed, spans.Now(), spans.exports);
    assert parser.emitted[|old(parser.emitted)|..] == out;
    ThenOver(old(spans.run), middle, spans.run, out);
  }
}
