/** The generation-guarded cache of dependency graphs, as the runs of its critical sections (metadata/reader.go). */
module MetadataCache {
  import opened MetadataGraph
  import opened Options

  datatype Key = Key(database: string, version: string, root: Object)
  datatype Entry = Entry(graph: Graph, expires: int)
  datatype Ticket = Ticket(key: Key, generation: nat)
  datatype Cache = Cache(database: string, version: string, generation: nat, entries: map<Key, Entry>)
  datatype Limits = Limits(ttl: int, maxEntries: nat)

  function KeyFor(c: Cache, root: Object): Key {
    Key(c.database, c.version, root)
  }

  /** What a read remembers of the cache while it walks the catalog. */
  function TicketFor(c: Cache, root: Object): Ticket {
    Ticket(KeyFor(c, root), c.generation)
  }

  function Hit(c: Cache, root: Object, now: int): Option<Graph> {
    var k := KeyFor(c, root);
    if k in c.entries && now < c.entries[k].expires then Some(c.entries[k].graph) else None
  }

  function Live(entries: map<Key, Entry>, now: int): map<Key, Entry> {
    map k | k in entries && !(now > entries[k].expires) :: entries[k]
  }

  ghost predicate Oldest(entries: map<Key, Entry>, v: Key) {
    v in entries && forall k :: k in entries ==> entries[v].expires <= entries[k].expires
  }

  /** The expired entries go, the oldest of the others goes when there is no room, and the graph is put in. */
  ghost predicate Puts(l: Limits, before: map<Key, Entry>, k: Key, e: Entry, now: int, after: map<Key, Entry>) {
    var live := Live(before, now);
    if |live| < l.maxEntries then after == live[k := e]
    else exists v :: Oldest(live, v) && after == (live - {v})[k := e]
  }

  ghost predicate StoreStep(l: Limits, c: Cache, t: Ticket, g: Graph, now: int, d: Cache) {
    if t.generation != c.generation then d == c
    else Puts(l, c.entries, t.key, Entry(g, now + l.ttl), now, d.entries) && d == c.(entries := d.entries)
  }

  function InvalidateStep(c: Cache, version: string): Cache {
    c.(version := version, generation := c.generation + 1, entries := map[])
  }

  // ---- runs

  /**
   * A critical section: a read looks the cache up, the read begun at `begun` stores its graph, or the schema moves
   * on.
   */
  datatype Action = Lookup(root: Object) | Store(begun: nat, graph: Graph, now: int) | Invalidation(version: string)

  ghost predicate Step(l: Limits, states: seq<Cache>, actions: seq<Action>, i: nat)
    requires i < |actions| && |states| == |actions| + 1
  {
    match actions[i]
    case Lookup(_) => states[i + 1] == states[i]
    case Invalidation(version) => states[i + 1] == InvalidateStep(states[i], version)
    case Store(begun, graph, now) =>
      begun < i && actions[begun].Lookup?
      && StoreStep(l, states[i], TicketFor(states[begun], actions[begun].root), graph, now, states[i + 1])
  }

  /** Any interleaving of reads and invalidations, however many reads are under way at once. */
  ghost predicate IsRun(l: Limits, states: seq<Cache>, actions: seq<Action>) {
    && |states| == |actions| + 1
    && states[0].entries == map[]
    && forall i :: 0 <= i < |actions| ==> Step(l, states, actions, i)
  }

  /** The entry was stored at `at` by a read that began after the latest invalidation. */
  ghost predicate StoredAt(l: Limits, states: seq<Cache>, actions: seq<Action>, i: nat, k: Key, e: Entry, at: nat)
    requires |states| == |actions| + 1 && i <= |actions|
  {
    && at < i && actions[at].Store? && actions[at].begun < at
    && var begun := actions[at].begun;
       actions[begun].Lookup?
       && k == KeyFor(states[begun], actions[begun].root)
       && e == Entry(actions[at].graph, actions[at].now + l.ttl)
       && forall j :: begun <= j < i ==> !actions[j].Invalidation?
  }

  ghost predicate HasOrigin(l: Limits, states: seq<Cache>, actions: seq<Action>, i: nat, k: Key, e: Entry)
    requires |states| == |actions| + 1 && i <= |actions|
  {
    exists at: nat :: StoredAt(l, states, actions, i, k, e, at)
  }

  ghost predicate Current(l: Limits, states: seq<Cache>, actions: seq<Action>, i: nat)
    requires |states| == |actions| + 1 && i <= |actions|
  {
    forall k :: k in states[i].entries ==>
      k.version == states[i].version && k.database == states[i].database
      && HasOrigin(l, states, actions, i, k, states[i].entries[k])
  }

  /** The generation counts the invalidations, so an equal generation means that none came between. */
  lemma {:induction false} GenerationGrows(l: Limits, states: seq<Cache>, actions: seq<Action>, i: nat, j: nat)
    requires IsRun(l, states, actions) && i <= j <= |actions|
    ensures states[i].generation <= states[j].generation && states[i].database == states[j].database
    ensures states[i].generation == states[j].generation ==>
      states[i].version == states[j].version && forall n :: i <= n < j ==> !actions[n].Invalidation?
    decreases j
  {
    if i < j {
      GenerationGrows(l, states, actions, i, j - 1);
      assert Step(l, states, actions, j - 1);
    }
  }

  lemma StillStored(l: Limits, states: seq<Cache>, actions: seq<Action>, i: nat, k: Key)
    requires |states| == |actions| + 1 && i < |actions| && !actions[i].Invalidation?
    requires Current(l, states, actions, i) && k in states[i].entries
    ensures HasOrigin(l, states, actions, i + 1, k, states[i].entries[k])
  {
    var at: nat :| StoredAt(l, states, actions, i, k, states[i].entries[k], at);
    assert StoredAt(l, states, actions, i + 1, k, states[i].entries[k], at);
  }

  lemma PutsOnlyNew(l: Limits, before: map<Key, Entry>, k: Key, e: Entry, now: int, after: map<Key, Entry>)
    requires Puts(l, before, k, e, now, after)
    ensures k in after && after[k] == e
    ensures forall j :: j in after && j != k ==> j in before && after[j] == before[j]
  {
  }

  /**
   * Over every interleaving, what is cached came from a read begun after the latest invalidation, under its version.
   */
  lemma {:induction false} CachedIsCurrent(l: Limits, states: seq<Cache>, actions: seq<Action>, i: nat)
    requires IsRun(l, states, actions) && i <= |actions|
    ensures Current(l, states, actions, i)
  {
    if i > 0 {
      CachedIsCurrent(l, states, actions, i - 1);
      assert Step(l, states, actions, i - 1);
      match actions[i - 1] {
        case Invalidation(_) =>
        case Lookup(_) =>
          forall k | k in states[i].entries ensures HasOrigin(l, states, actions, i, k, states[i].entries[k]) {
            StillStored(l, states, actions, i - 1, k);
          }
        case Store(begun, graph, now) =>
          StoreIsCurrent(l, states, actions, i - 1);
      }
    }
  }

  lemma StoreIsCurrent(l: Limits, states: seq<Cache>, actions: seq<Action>, i: nat)
    requires IsRun(l, states, actions) && i < |actions| && actions[i].Store? && Current(l, states, actions, i)
    ensures Current(l, states, actions, i + 1)
  {
    hide Puts;
    assert Step(l, states, actions, i);
    var begun := actions[i].begun;
    var t := TicketFor(states[begun], actions[begun].root);
    GenerationGrows(l, states, actions, begun, i);
    var e := Entry(actions[i].graph, actions[i].now + l.ttl);
    if t.generation == states[i].generation {
      PutsOnlyNew(l, states[i].entries, t.key, e, actions[i].now, states[i + 1].entries);
    }
    forall k | k in states[i + 1].entries
      ensures k.version == states[i + 1].version && k.database == states[i + 1].database
      ensures HasOrigin(l, states, actions, i + 1, k, states[i + 1].entries[k])
    {
      if t.generation == states[i].generation && k == t.key {
        assert StoredAt(l, states, actions, i + 1, k, e, i);
      } else {
        StillStored(l, states, actions, i, k);
      }
    }
  }

  lemma PutSize(m: map<Key, Entry>, k: Key, e: Entry)
    ensures |m[k := e]| <= |m| + 1
  {
  }

  lemma RemoveSize(m: map<Key, Entry>, v: Key)
    requires v in m
    ensures |m - {v}| == |m| - 1
  {
  }

  lemma LiveSize(m: map<Key, Entry>, now: int)
    ensures |Live(m, now)| <= |m|
  {
    assert Live(m, now).Keys <= m.Keys;
    SubsetSize(Live(m, now).Keys, m.Keys);
  }

  lemma {:induction false} SubsetSize<T>(a: set<T>, b: set<T>)
    requires a <= b
    ensures |a| <= |b|
  {
    assert b == a + (b - a);
  }

  lemma PutsSize(l: Limits, before: map<Key, Entry>, k: Key, e: Entry, now: int, after: map<Key, Entry>)
    requires l.maxEntries >= 1 && |before| <= l.maxEntries && Puts(l, before, k, e, now, after)
    ensures |after| <= l.maxEntries
  {
    var live := Live(before, now);
    LiveSize(before, now);
    PutSize(live, k, e);
    if |live| >= l.maxEntries {
      var v :| Oldest(live, v) && after == (live - {v})[k := e];
      RemoveSize(live, v);
      PutSize(live - {v}, k, e);
    }
  }

  /** The cache never grows past its bound. */
  lemma {:induction false} CacheIsBounded(l: Limits, states: seq<Cache>, actions: seq<Action>, i: nat)
    requires IsRun(l, states, actions) && i <= |actions| && l.maxEntries >= 1
    ensures |states[i].entries| <= l.maxEntries
  {
    if i > 0 {
      hide Puts;
      CacheIsBounded(l, states, actions, i - 1);
      assert Step(l, states, actions, i - 1);
      if actions[i - 1].Store? {
        var a := actions[i - 1];
        var t := TicketFor(states[a.begun], actions[a.begun].root);
        if t.generation == states[i - 1].generation {
          PutsSize(l, states[i - 1].entries, t.key, Entry(a.graph, a.now + l.ttl), a.now, states[i].entries);
        }
      }
    }
  }

  /** The read that stored its graph at `at` began after the latest invalidation before `i`, and asked for `root`. */
  ghost predicate FreshRead(actions: seq<Action>, i: nat, root: Object, graph: Graph, at: nat) {
    && at < i <= |actions| && actions[at].Store? && actions[at].graph == graph && actions[at].begun < at
    && actions[actions[at].begun] == Lookup(root)
    && forall j :: actions[at].begun <= j < i ==> !actions[j].Invalidation?
  }

  /**
   * A hit returns the graph of a read of the same object that no invalidation has overtaken and that is not too old.
   */
  lemma HitIsFresh(l: Limits, states: seq<Cache>, actions: seq<Action>, i: nat, root: Object, now: int)
    requires IsRun(l, states, actions) && i <= |actions| && Hit(states[i], root, now).Some?
    ensures exists at: nat ::
      && FreshRead(actions, i, root, Hit(states[i], root, now).value, at)
      && now < actions[at].now + l.ttl
  {
    CachedIsCurrent(l, states, actions, i);
    var k := KeyFor(states[i], root);
    assert HasOrigin(l, states, actions, i, k, states[i].entries[k]);
    var at: nat :| StoredAt(l, states, actions, i, k, states[i].entries[k], at);
    assert FreshRead(actions, i, root, states[i].entries[k].graph, at);
  }

  lemma Extend(l: Limits, states: seq<Cache>, actions: seq<Action>, a: Action, d: Cache)
    requires IsRun(l, states, actions)
    requires Step(l, states + [d], actions + [a], |actions|)
    ensures IsRun(l, states + [d], actions + [a])
  {
    hide StoreStep;
    forall i | 0 <= i < |actions| + 1 ensures Step(l, states + [d], actions + [a], i) {
      if i < |actions| {
        assert Step(l, states, actions, i);
      }
    }
  }
}
