/**
 * What the span consumer keeps between events: trees under construction and who is in them (trace/spans.go, consume).
 */
module SpanForest {
  import opened Options
  import opened TraceEvents
  import opened SpanRegistry

  const MAX_FRAMES: nat := 4096

  datatype Node = Node(start: Event, finish: Option<Event>)
  datatype Tree = Tree(token: Token, anchor: int, nodes: seq<Node>, index: map<nat, nat>, complete: bool, omitted: bool)
  datatype Pending = Pending(token: Token, anchor: int)

  /** `made` holds every tree there ever was and stands for the heap; `live` are the trees still followed. */
  datatype Forest = Forest(
    pending: map<nat, Pending>,
    frames: map<nat, nat>,
    made: seq<Tree>,
    live: set<nat>,
    active: map<nat, nat>,
    counts: map<nat, int>)

  const BARE := Forest(map[], map[], [], {}, map[], map[])

  predicate Indexed(t: Tree) {
    forall s :: s in t.index ==> t.index[s] < |t.nodes|
  }

  /** No reference leads outside the heap. */
  predicate Sound(f: Forest) {
    && (forall s :: s in f.frames ==> f.frames[s] < |f.made|)
    && (forall id :: id in f.live ==> id < |f.made|)
    && (forall id :: 0 <= id < |f.made| ==> Indexed(f.made[id]))
  }

  /** Every tree that is followed has a root. */
  predicate Rooted(f: Forest) {
    forall id :: id in f.live ==> id < |f.made| && f.made[id].nodes != []
  }

  // ---- losing trees

  function FramesWithout(frames: map<nat, nat>, gone: set<nat>): map<nat, nat> {
    map s | s in frames && frames[s] !in gone :: frames[s]
  }

  function Without(f: Forest, gone: set<nat>): Forest {
    f.(frames := FramesWithout(f.frames, gone), live := f.live - gone)
  }

  function Cleared(f: Forest): Forest {
    Without(f, f.live).(pending := map[], active := map[], counts := map[])
  }

  /** The trees whose root runs on the attachment. */
  function TreesOf(f: Forest, attachment: nat): set<nat>
    requires Rooted(f)
  {
    set id | id in f.live && f.made[id].nodes[0].start.attachment == attachment
  }

  function ClearedAttachment(f: Forest, attachment: nat): Forest
    requires Rooted(f)
  {
    if attachment == 0 then Cleared(f) else
    Without(f, TreesOf(f, attachment)).(
      pending := f.pending - {attachment},
      active := map s | s in f.active && f.active[s] != attachment :: f.active[s],
      counts := f.counts - {attachment})
  }

  // ---- events

  /** A marker query finished: the next top-level statement of its attachment is the one it announces. */
  function Announced(f: Forest, e: Event, found: bool, anchor: Option<int>, maxPending: nat): Forest {
    var g := f.(pending := f.pending - {e.attachment});
    if found && anchor.Some? && e.attachment > 0 && |g.pending| < maxPending
    then g.(pending := g.pending[e.attachment := Pending(e.scopeToken, anchor.value)])
    else g
  }

  function Count(f: Forest, attachment: nat): int {
    if attachment in f.counts then f.counts[attachment] else 0
  }

  predicate TakesPending(f: Forest, e: Event) {
    e.attachment in f.pending && e.kind == Statement && e.parent == 0 && Count(f, e.attachment) == 0
  }

  function Owner(f: Forest, n: nat): Option<nat> {
    if n in f.frames then Some(f.frames[n]) else None
  }

  /** The tree a start belongs to: the one announced for it, or the one of its parent. */
  function Opened(f: Forest, e: Event, found: bool): (Forest, Option<nat>) {
    if !TakesPending(f, e) then (f, Owner(f, e.parent)) else
    var p := f.pending[e.attachment];
    var g := f.(pending := f.pending - {e.attachment});
    if !found then (g, Owner(f, e.parent))
    else
      (g.(made := g.made + [Tree(p.token, p.anchor, [], map[], false, false)], live := g.live + {|g.made|}),
       Some(|g.made|))
  }

  function Activated(f: Forest, e: Event): Forest {
    if e.attachment == 0 then f else
    f.(active := f.active[e.sequence := e.attachment], counts := f.counts[e.attachment := Count(f, e.attachment) + 1])
  }

  function Joined(f: Forest, id: nat, e: Event, found: bool, maxNodes: nat): Forest
    requires id < |f.made|
  {
    var t := f.made[id];
    if !found || |f.frames| >= MAX_FRAMES then Without(f, {id})
    else if |t.nodes| >= maxNodes then
      f.(made := f.made[id := t.(omitted := true)], frames := f.frames[e.sequence := id])
    else
      f.(made := f.made[id := t.(nodes := t.nodes + [Node(e, None)], index := t.index[e.sequence := |t.nodes|])],
         frames := f.frames[e.sequence := id])
  }

  /** A start with the answers to its two lookups: of the announced token, and of the token of its tree. */
  function Started(f: Forest, e: Event, announced: bool, found: bool, maxNodes: nat): Forest
    requires Sound(f)
  {
    var (g, tree) := Opened(f, e, announced);
    var h := Activated(g, e);
    if tree.None? then h else Joined(h, tree.value, e, found, maxNodes)
  }

  function Deactivated(f: Forest, n: nat): Forest {
    if n !in f.active then f else
    var a := f.active[n];
    var left := Count(f, a) - 1;
    f.(active := f.active - {n}, counts := if left == 0 then f.counts - {a} else f.counts[a := left])
  }

  function Finished(f: Forest, e: Event): Forest
    requires Sound(f)
  {
    var g := Deactivated(f, e.sequence);
    if e.sequence !in g.frames then g else
    var id := g.frames[e.sequence];
    var t := g.made[id];
    var h := g.(frames := g.frames - {e.sequence});
    if e.sequence !in t.index then h else
    var i := t.index[e.sequence];
    h.(made := h.made[id := t.(
      nodes := t.nodes[i := t.nodes[i].(finish := Some(e))], complete := t.complete || i == 0)])
  }

  /** The root finished, so the consumer looks for trees to export. */
  predicate Completes(f: Forest, e: Event)
    requires Sound(f)
  {
    && e.sequence in f.frames
    && var t := f.made[f.frames[e.sequence]];
       e.sequence in t.index && t.index[e.sequence] == 0
  }

  // ---- export

  predicate Exports(f: Forest, id: nat, answer: Option<Scope>)
    requires id < |f.made|
  {
    answer.Some? && f.made[id].complete && answer.value.parent.valid
  }

  /** One tree of a flush, with the answer to the lookup of its token. */
  function Flushed(f: Forest, id: nat, answer: Option<Scope>): Forest
    requires id < |f.made|
  {
    if answer.None? then Without(f, {id})
    else if Exports(f, id, answer) then f.(frames := f.frames - f.made[id].index.Keys, live := f.live - {id})
    else f
  }
}
