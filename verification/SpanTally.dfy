/** The bounds of the span consumer and its count of running executions, whatever the lookups answer. */
module SpanTally {
  import opened Options
  import opened TraceEvents
  import opened SpanForest
  import R = SpanRegistry

  ghost function Running(active: map<nat, nat>, attachment: nat): set<nat> {
    set s | s in active && active[s] == attachment
  }

  ghost predicate CountOk(active: map<nat, nat>, counts: map<nat, int>, a: nat) {
    if a in counts then counts[a] == |Running(active, a)| > 0 else Running(active, a) == {}
  }

  /** The count of each attachment is the number of its executions recorded as active; no count is zero. */
  ghost predicate CountsOk(active: map<nat, nat>, counts: map<nat, int>) {
    forall a: nat :: CountOk(active, counts, a)
  }

  ghost predicate Known(active: map<nat, nat>, started: nat) {
    forall s :: s in active ==> s <= started
  }

  ghost predicate Tally(f: Forest, started: nat, maxPending: nat) {
    && CountsOk(f.active, f.counts) && Known(f.active, started)
    && |f.frames| <= MAX_FRAMES && |f.pending| <= maxPending
  }

  // ---- sizes

  lemma FewerKeys<V>(m: map<nat, V>, n: map<nat, V>)
    requires m.Keys <= n.Keys
    ensures |m| <= |n|
  {
    Fewer(m.Keys, n.Keys);
    assert |m| == |m.Keys| && |n| == |n.Keys|;
  }

  lemma Fewer(a: set<nat>, b: set<nat>)
    requires a <= b
    ensures |a| <= |b|
  {
    assert b == a + (b - a);
  }

  lemma OneMore<V>(m: map<nat, V>, k: nat, v: V)
    ensures |m[k := v]| <= |m| + 1
  {
  }

  // ---- counts

  lemma CountAdded(active: map<nat, nat>, counts: map<nat, int>, s: nat, a: nat)
    requires CountsOk(active, counts) && s !in active
    ensures CountsOk(active[s := a], counts[a := (if a in counts then counts[a] else 0) + 1])
  {
    var c := if a in counts then counts[a] else 0;
    var busy, more := active[s := a], counts[a := c + 1];
    forall b: nat ensures CountOk(busy, more, b) {
      assert CountOk(active, counts, b);
      if b == a {
        assert Running(busy, a) == Running(active, a) + {s};
      } else {
        assert Running(busy, b) == Running(active, b);
      }
    }
  }

  lemma CountRemoved(active: map<nat, nat>, counts: map<nat, int>, s: nat)
    requires CountsOk(active, counts) && s in active
    ensures active[s] in counts
    ensures var a := active[s];
      CountsOk(active - {s}, if counts[a] == 1 then counts - {a} else counts[a := counts[a] - 1])
  {
    var a := active[s];
    assert CountOk(active, counts, a);
    assert s in Running(active, a);
    var fewer := if counts[a] == 1 then counts - {a} else counts[a := counts[a] - 1];
    forall b: nat ensures CountOk(active - {s}, fewer, b) {
      assert CountOk(active, counts, b);
      if b == a {
        assert Running(active - {s}, a) == Running(active, a) - {s};
      } else {
        assert Running(active - {s}, b) == Running(active, b);
      }
    }
  }

  lemma CountsCleared(active: map<nat, nat>, counts: map<nat, int>, a: nat)
    requires CountsOk(active, counts)
    ensures CountsOk(map s | s in active && active[s] != a :: active[s], counts - {a})
  {
    var left := map s | s in active && active[s] != a :: active[s];
    forall b: nat ensures CountOk(left, counts - {a}, b) {
      assert CountOk(active, counts, b);
      if b == a {
        assert Running(left, a) == {};
      } else {
        assert Running(left, b) == Running(active, b);
      }
    }
  }

  lemma NoCounts()
    ensures CountsOk(map[], map[])
  {
  }

  // ---- every step of the consumer

  lemma WithoutTally(f: Forest, gone: set<nat>, started: nat, maxPending: nat)
    requires Tally(f, started, maxPending)
    ensures Tally(Without(f, gone), started, maxPending)
  {
    hide CountsOk, Known;
    FewerKeys(FramesWithout(f.frames, gone), f.frames);
  }

  lemma ClearedTally(f: Forest, started: nat, maxPending: nat)
    requires Tally(f, started, maxPending)
    ensures Tally(Cleared(f), started, maxPending)
  {
    hide CountsOk;
    WithoutTally(f, f.live, started, maxPending);
    NoCounts();
  }

  lemma ClearedAttachmentTally(f: Forest, attachment: nat, started: nat, maxPending: nat)
    requires Tally(f, started, maxPending) && Rooted(f)
    ensures Tally(ClearedAttachment(f, attachment), started, maxPending)
  {
    hide CountsOk, Rooted, TreesOf;
    if attachment == 0 {
      ClearedTally(f, started, maxPending);
    } else {
      WithoutTally(f, TreesOf(f, attachment), started, maxPending);
      CountsCleared(f.active, f.counts, attachment);
      FewerKeys(f.pending - {attachment}, f.pending);
    }
  }

  lemma AnnouncedTally(f: Forest, e: Event, found: bool, anchor: Option<int>, started: nat, maxPending: nat)
    requires Tally(f, started, maxPending)
    ensures Tally(Announced(f, e, found, anchor, maxPending), started, maxPending)
  {
  }

  lemma ActivatedTally(f: Forest, e: Event, started: nat, maxPending: nat)
    requires Tally(f, started, maxPending) && e.sequence == started + 1
    ensures Tally(Activated(f, e), started + 1, maxPending)
  {
    hide CountsOk;
    if e.attachment != 0 {
      CountAdded(f.active, f.counts, e.sequence, e.attachment);
    }
  }

  lemma JoinedTally(f: Forest, id: nat, e: Event, found: bool, maxNodes: nat, started: nat, maxPending: nat)
    requires Tally(f, started, maxPending) && id < |f.made|
    ensures Tally(Joined(f, id, e, found, maxNodes), started, maxPending)
  {
    hide CountsOk, Known;
    WithoutTally(f, {id}, started, maxPending);
    OneMore(f.frames, e.sequence, id);
  }

  lemma StartedTally(f: Forest, e: Event, announced: bool, found: bool, maxNodes: nat, started: nat, maxPending: nat)
    requires Tally(f, started, maxPending) && e.sequence == started + 1 && Sound(f)
    ensures Tally(Started(f, e, announced, found, maxNodes), started + 1, maxPending)
  {
    hide CountsOk, Known, Joined, Activated, Indexed;
    var (g, tree) := Opened(f, e, announced);
    FewerKeys(f.pending - {e.attachment}, f.pending);
    assert Tally(g, started, maxPending);
    ActivatedTally(g, e, started, maxPending);
    if tree.Some? {
      TreeIsMade(f, e, announced);
      JoinedTally(Activated(g, e), tree.value, e, found, maxNodes, started + 1, maxPending);
    }
  }

  lemma TreeIsMade(f: Forest, e: Event, announced: bool)
    requires Sound(f)
    ensures var (g, tree) := Opened(f, e, announced); tree.Some? ==> tree.value < |Activated(g, e).made|
  {
  }

  lemma DeactivatedTally(f: Forest, n: nat, started: nat, maxPending: nat)
    requires Tally(f, started, maxPending)
    ensures Tally(Deactivated(f, n), started, maxPending)
  {
    hide CountsOk;
    if n in f.active {
      CountRemoved(f.active, f.counts, n);
    }
  }

  lemma FinishedTally(f: Forest, e: Event, started: nat, maxPending: nat)
    requires Tally(f, started, maxPending) && Sound(f)
    ensures Tally(Finished(f, e), started, maxPending)
  {
    hide CountsOk, Known, Indexed, Sound, Deactivated;
    var g, after := Deactivated(f, e.sequence), Finished(f, e);
    DeactivatedTally(f, e.sequence, started, maxPending);
    FewerKeys(g.frames - {e.sequence}, g.frames);
    FinishedFields(f, e);
  }

  lemma FinishedFields(f: Forest, e: Event)
    requires Sound(f)
    ensures var g, after := Deactivated(f, e.sequence), Finished(f, e);
      && after.active == g.active && after.counts == g.counts && after.pending == g.pending
      && (after.frames == g.frames || after.frames == g.frames - {e.sequence})
  {
    hide Deactivated;
  }

  lemma FlushedTally(f: Forest, id: nat, answer: Option<R.Scope>, started: nat, maxPending: nat)
    requires Tally(f, started, maxPending) && id < |f.made|
    ensures Tally(Flushed(f, id, answer), started, maxPending)
  {
    hide CountsOk, Known;
    WithoutTally(f, {id}, started, maxPending);
    FewerKeys(f.frames - f.made[id].index.Keys, f.frames);
  }

  lemma BareTally(maxPending: nat)
    ensures Tally(BARE, 0, maxPending)
  {
  }
}
