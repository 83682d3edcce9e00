/** The reader: its graphs are slices on the heap, so that lending one out and caching one must not share memory. */
module MetadataReader {
  import opened MetadataCache
  import opened MetadataGraph
  import opened MetadataWalk
  import opened Options

  const MAX_NAME: int := 252
  const MAX_VERSION: int := 256

  /** A graph as it lies in memory: two slices beside the values. */
  datatype Slices = Slices(root: Object, scope: Scope, nodes: array<Object>, edges: array<Edge>, truncated: bool)
  {
    function Value(): Graph
      reads nodes, edges
    {
      Graph(root, scope, nodes[..], edges[..], truncated)
    }
  }

  datatype Stored = Stored(graph: Slices, expires: int)

  /** What a read does first: nothing for a bad name, a copy of the cached graph, or a walk it still has to make. */
  datatype Begun = Invalid | Cached(graph: Slices) | Missed(ticket: Ticket)

  predicate ValidRoot(o: Object) {
    o.name != "" && |o.name| <= MAX_NAME && |o.package| <= MAX_NAME && 0 <= o.kind <= 255
  }

  method Clone(s: Slices) returns (c: Slices)
    ensures fresh(c.nodes) && fresh(c.edges) && c.Value() == s.Value()
  {
    var nodes := new Object[s.nodes.Length](i requires 0 <= i < s.nodes.Length reads s.nodes => s.nodes[i]);
    var edges := new Edge[s.edges.Length](i requires 0 <= i < s.edges.Length reads s.edges => s.edges[i]);
    assert nodes[..] == s.nodes[..] && edges[..] == s.edges[..];
    c := s.(nodes := nodes, edges := edges);
  }

  method Allocate(g: Graph) returns (s: Slices)
    ensures fresh(s.nodes) && fresh(s.edges) && s.Value() == g
  {
    var nodes := new Object[|g.nodes|](i requires 0 <= i < |g.nodes| => g.nodes[i]);
    var edges := new Edge[|g.edges|](i requires 0 <= i < |g.edges| => g.edges[i]);
    assert nodes[..] == g.nodes && edges[..] == g.edges;
    s := Slices(g.root, g.scope, nodes, edges, g.truncated);
  }

  lemma PutsAgain(
      l: Limits, before: map<Key, Entry>, k: Key, e: Entry, now: int, room: map<Key, Entry>, after: map<Key, Entry>)
    requires var live := Live(before, now);
      if |live| < l.maxEntries then room == live else exists v :: Oldest(live, v) && room == live - {v}
    requires after == room[k := e]
    ensures Puts(l, before, k, e, now, after)
  {
  }

  class Reader {
    const database: string
    const limits: Limits
    const maxNodes: nat
    const maxDepth: nat
    var version: string
    var generation: nat
    var cache: map<Key, Stored>

    /** Every state so far and the critical sections between them. */
    ghost var states: seq<Cache>
    ghost var actions: seq<Action>
    /** The memory that callers hold, and the memory of the cache. */
    ghost var lent: set<object>
    ghost var owned: set<object>

    ghost predicate Holds()
      reads this
    {
      forall k :: k in cache ==> cache[k].graph.nodes in owned && cache[k].graph.edges in owned
    }

    ghost function Entries(): map<Key, Entry>
      reads this, owned
      requires Holds()
    {
      map k | k in cache :: Entry(cache[k].graph.Value(), cache[k].expires)
    }

    ghost function Now(): Cache
      reads this, owned
      requires Holds()
    {
      Cache(database, version, generation, Entries())
    }

    /** The cached memory is held by no caller, and the history is a run that ends in the present state. */
    ghost predicate Valid()
      reads this, owned
    {
      && limits.maxEntries >= 1 && maxNodes >= 1 && maxDepth >= 1
      && Holds() && owned !! lent
      && IsRun(limits, states, actions) && states[|actions|] == Now()
    }

    constructor (database: string, version: string, limits: Limits, maxNodes: nat, maxDepth: nat)
      requires limits.maxEntries >= 1 && maxNodes >= 1 && maxDepth >= 1
      ensures Valid() && Now() == Cache(database, version, 0, map[]) && actions == [] && lent == {}
    {
      this.database, this.version, this.limits := database, version, limits;
      this.maxNodes, this.maxDepth := maxNodes, maxDepth;
      generation, cache := 0, map[];
      states, actions, lent, owned := [Cache(database, version, 0, map[])], [], {}, {};
      new;
      assert Entries() == map[];
    }

    /** Moves to another schema version and forgets every graph; a version that is too long changes nothing. */
    method Invalidate(version: string) returns (ok: bool)
      requires Valid()
      modifies this
      ensures Valid() && lent == old(lent)
      ensures ok == (|version| <= MAX_VERSION)
      ensures Now() == if ok then InvalidateStep(old(Now()), version) else old(Now())
      ensures actions == if ok then old(actions) + [Invalidation(version)] else old(actions)
      ensures old(states) <= states
    {
      if |version| > MAX_VERSION {
        return false;
      }
      ghost var before := Now();
      this.version := version;
      generation := generation + 1;
      cache := map[];
      assert Entries() == map[];
      assert Now() == InvalidateStep(before, version);
      Extend(limits, states, actions, Invalidation(version), Now());
      states, actions := states + [Now()], actions + [Invalidation(version)];
      ok := true;
    }

    /** The part of a read up to the first unlock. */
    method BeginRead(root: Object, now: int) returns (r: Begun)
      requires Valid()
      modifies this`states, this`actions, this`lent
      ensures Valid() && Now() == old(Now()) && old(states) <= states
      ensures r.Invalid? <==> !ValidRoot(root)
      ensures r.Invalid? ==> actions == old(actions) && lent == old(lent)
      ensures !r.Invalid? ==> actions == old(actions) + [Lookup(root)]
      ensures r.Cached? ==>
        Hit(Now(), root, now) == Some(r.graph.Value())
        && fresh(r.graph.nodes) && fresh(r.graph.edges) && lent == old(lent) + {r.graph.nodes, r.graph.edges}
      ensures r.Missed? ==>
        Hit(Now(), root, now) == None && r.ticket == TicketFor(Now(), root) && lent == old(lent)
    {
      if !ValidRoot(root) {
        return Invalid;
      }
      Extend(limits, states, actions, Lookup(root), Now());
      states, actions := states + [Now()], actions + [Lookup(root)];
      var k := Key(database, version, root);
      var g := generation;
      if k in cache && now < cache[k].expires {
        var copy := Clone(cache[k].graph);
        lent := lent + {copy.nodes, copy.edges};
        return Cached(copy);
      }
      r := Missed(Ticket(k, g));
    }

    /** Deletes the entries that have expired. */
    method Purge(now: int)
      modifies this`cache
      ensures cache == map k | k in old(cache) && !(now > old(cache)[k].expires) :: old(cache)[k]
    {
      var todo := cache.Keys;
      while todo != {}
        invariant todo <= cache.Keys <= old(cache).Keys
        invariant forall k :: k in cache ==> cache[k] == old(cache)[k]
        invariant forall k :: k in old(cache) && k !in todo ==> (k in cache <==> !(now > old(cache)[k].expires))
        decreases |todo|
      {
        var k :| k in todo;
        todo := todo - {k};
        if now > cache[k].expires {
          cache := cache - {k};
        }
      }
    }

    method OldestKey() returns (v: Key)
      requires |cache| > 0
      ensures v in cache && forall k :: k in cache ==> cache[v].expires <= cache[k].expires
    {
      var todo := cache.Keys;
      var oldest: Option<Key> := None;
      assert |todo| == |cache|;
      while todo != {}
        invariant todo <= cache.Keys
        invariant oldest.None? ==> todo == cache.Keys
        invariant oldest.Some? ==> oldest.value in cache
        invariant oldest.Some? ==>
          forall k :: k in cache && k !in todo ==> cache[oldest.value].expires <= cache[k].expires
        decreases |todo|
      {
        var k :| k in todo;
        todo := todo - {k};
        if oldest.None? || cache[k].expires < cache[oldest.value].expires {
          oldest := Some(k);
        }
      }
      v := oldest.value;
    }

    method DropExpired(now: int)
      requires Holds()
      modifies this`cache
      ensures Holds() && Entries() == Live(old(Entries()), now)
    {
      Purge(now);
    }

    /** Deletes the entry that expires first. */
    method RemoveOldest()
      requires |cache| > 0 && Holds()
      modifies this`cache
      ensures Holds() && exists v :: Oldest(old(Entries()), v) && Entries() == old(Entries()) - {v}
    {
      ghost var live := Entries();
      var v := OldestKey();
      cache := cache - {v};
      assert Oldest(live, v) && Entries() == live - {v};
    }

    lemma SameSize()
      requires Holds()
      ensures |Entries()| == |cache|
    {
      assert cache.Keys == Entries().Keys;
      assert |cache| == |cache.Keys| && |Entries().Keys| == |Entries()|;
    }

    /** Makes room for one more entry: the expired ones go, and the one that expires first if that is not enough. */
    method Evict(now: int)
      requires limits.maxEntries >= 1 && Holds()
      modifies this`cache
      ensures Holds()
      ensures var live := Live(old(Entries()), now);
        if |live| < limits.maxEntries then Entries() == live
        else exists v :: Oldest(live, v) && Entries() == live - {v}
    {
      hide Entries, Live, Oldest;
      DropExpired(now);
      SameSize();
      if |cache| >= limits.maxEntries {
        RemoveOldest();
      }
    }

    /** Puts a copy of the graph in the cache. */
    method Insert(k: Key, g: Slices, expires: int)
      requires Holds()
      modifies this`cache, this`owned
      ensures Holds() && fresh(owned - old(owned))
      ensures Entries() == old(Entries())[k := Entry(g.Value(), expires)]
    {
      var copy := Clone(g);
      cache := cache[k := Stored(copy, expires)];
      owned := owned + {copy.nodes, copy.edges};
    }

    method Keep(k: Key, g: Slices, now: int)
      requires limits.maxEntries >= 1 && Holds()
      modifies this`cache, this`owned
      ensures Holds() && fresh(owned - old(owned))
      ensures Puts(limits, old(Entries()), k, Entry(g.Value(), now + limits.ttl), now, Entries())
    {
      hide *;
      ghost var before := Entries();
      Evict(now);
      ghost var room := Entries();
      Insert(k, g, now + limits.ttl);
      PutsAgain(limits, before, k, Entry(g.Value(), now + limits.ttl), now, room, Entries());
    }

    /** The second critical section of a read that began at `begun`. */
    method Put(ghost begun: nat, ticket: Ticket, g: Slices, now: int)
      requires Valid() && g.nodes in lent && g.edges in lent
      requires begun < |actions| && actions[begun].Lookup? && ticket == TicketFor(states[begun], actions[begun].root)
      modifies this`cache, this`owned, this`states, this`actions
      ensures Valid() && old(states) <= states
      ensures actions == old(actions) + [Store(begun, g.Value(), now)]
    {
      hide Puts;
      ghost var before := Now();
      ghost var action := Store(begun, g.Value(), now);
      if ticket.generation == generation {
        Keep(ticket.key, g, now);
      }
      assert StoreStep(limits, before, ticket, g.Value(), now, Now());
      Extend(limits, states, actions, action, Now());
      states, actions := states + [Now()], actions + [action];
    }

    /** Hands a new graph to a caller. */
    method Lend(found: Graph) returns (g: Slices)
      requires Valid()
      modifies this`lent
      ensures Valid() && Now() == old(Now()) && g.Value() == found
      ensures fresh(g.nodes) && fresh(g.edges) && lent == old(lent) + {g.nodes, g.edges}
    {
      hide IsRun;
      g := Allocate(found);
      lent := lent + {g.nodes, g.edges};
    }

    /** The rest of a read after the first unlock: the walk, and the cache when the walk was made and succeeded. */
    method FinishRead(db: Catalog, ghost begun: nat, ticket: Ticket, root: Object, now: int)
      returns (g: Slices, end: Ending)
      requires Valid()
      requires begun < |actions| && actions[begun] == Lookup(root) && ticket == TicketFor(states[begun], root)
      modifies this`cache, this`owned, this`states, this`actions, this`lent
      ensures Valid() && old(states) <= states
      ensures fresh(g.nodes) && fresh(g.edges) && lent == old(lent) + {g.nodes, g.edges}
      ensures Sound(db, root, maxNodes, g.Value()) && ScopeOk(g.Value())
      ensures end == Walked && !g.truncated ==> Complete(db, root, g.Value())
      ensures g.truncated ==> Oversized(db, root, Bounds(maxNodes, maxDepth))
      ensures end != Broken && Oversized(db, root, Bounds(maxNodes, maxDepth)) ==> g.truncated
      ensures actions == old(actions) + if end == Walked then [Store(begun, g.Value(), now)] else []
      ensures end != Walked ==> Now() == old(Now())
    {
      hide Sound, ScopeOk, Complete, Oversized, IsRun;
      var found, ending, asked := Walk(db, maxNodes, maxDepth, root);
      g := Lend(found);
      end := ending;
      if end == Walked {
        Put(begun, ticket, g, now);
      }
    }
  }

  /** A caller that writes to a graph it was given changes neither the cache nor its history. */
  method CallerWrites(r: Reader, g: Slices, i: nat, o: Object, j: nat, e: Edge)
    requires r.Valid() && g.nodes in r.lent && g.edges in r.lent && i < g.nodes.Length && j < g.edges.Length
    modifies g.nodes, g.edges
    ensures r.Valid() && r.Now() == old(r.Now())
    ensures forall root, now :: Hit(r.Now(), root, now) == old(Hit(r.Now(), root, now))
  {
    g.nodes[i] := o;
    g.edges[j] := e;
  }
}
