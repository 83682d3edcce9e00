/** The span runtime: registrations shared with clients under a mutex, and the consumer's own state (trace/spans.go). */
module SpanConsumer {
  import opened Options
  import opened Utf8
  import opened TraceEvents
  import P = TracePairing
  import opened SpanRegistry
  import F = SpanForest
  import opened SpanFamily
  import opened SpanLinks
  import opened SpanTally
  import opened SpanComposition
  import opened SpanLog
  import opened SpanMachine
  import S = SpanExport
  import G = SpanGroups

  datatype Call =
    | CallRegister(client: SpanContext, at: int)
    | CallMarkerComplete(token: Token, at: int)
    | CallBind(token: Token, client: SpanContext)
    | CallDiscard(token: Token)
    | CallShutdown

  /** Random tokens never repeat. */
  ghost predicate NeverRepeats(random: nat -> Token) {
    forall i: nat, j: nat :: i != j ==> random(i) != random(j)
  }

  /** There are sources that never repeat. */
  lemma TokensNeverRunOut()
    ensures NeverRepeats((n: nat) => seq(n, _ => 0))
  {
    var random: nat -> Token := (n: nat) => seq(n, _ => 0);
    forall i: nat, j: nat | i != j ensures random(i) != random(j) {
      assert |random(i)| == i && |random(j)| == j;
    }
  }

  /** Every token a client drew is one of the first `drawn`. */
  ghost predicate DrawnFrom(random: nat -> Token, drawn: nat, acts: seq<Act>) {
    forall i :: 0 <= i < |acts| && acts[i].Register? ==> exists k: nat :: k < drawn && acts[i].token == random(k)
  }

  /** The registry and the history of its critical sections. */
  ghost predicate RegistryOk(
      b: Bounds, random: nat -> Token, drawn: nat, r: Registry, acts: seq<Act>, exports: seq<Export>) {
    && NeverRepeats(random) && DrawnFrom(random, drawn, acts) && FreshTokens(acts)
    && r == After(b, acts) && ExportsOk(b, acts, exports)
  }

  lemma ActAppended(b: Bounds, acts: seq<Act>, a: Act)
    ensures After(b, acts + [a]) == Step(b, After(b, acts), a) && (acts + [a])[..|acts|] == acts
  {
  }

  /** A critical section that draws no token. */
  lemma ActKeeps(b: Bounds, random: nat -> Token, drawn: nat, r: Registry, acts: seq<Act>, exports: seq<Export>, a: Act)
    requires RegistryOk(b, random, drawn, r, acts, exports) && !a.Register?
    ensures RegistryOk(b, random, drawn, Step(b, r, a), acts + [a], exports)
  {
    hide After, Step, ExportsOk;
    ActAppended(b, acts, a);
    ExportsStay(b, acts, acts + [a], exports);
  }

  lemma RegisterKeeps(
      b: Bounds, random: nat -> Token, drawn: nat, r: Registry, acts: seq<Act>, exports: seq<Export>,
      client: SpanContext, now: int)
    requires RegistryOk(b, random, drawn, r, acts, exports)
    ensures var a := Act.Register(client, random(drawn), now);
      RegistryOk(b, random, drawn + 1, Step(b, r, a), acts + [a], exports)
  {
    hide After, Step, ExportsOk;
    var a := Act.Register(client, random(drawn), now);
    ActAppended(b, acts, a);
    ExportsStay(b, acts, acts + [a], exports);
    TokenIsNew(random, drawn, acts, a);
  }

  lemma TokenIsNew(random: nat -> Token, drawn: nat, acts: seq<Act>, a: Act)
    requires NeverRepeats(random) && DrawnFrom(random, drawn, acts) && FreshTokens(acts) && a.Register?
    requires a.token == random(drawn)
    ensures DrawnFrom(random, drawn + 1, acts + [a]) && FreshTokens(acts + [a])
  {
    var more := acts + [a];
    forall i | 0 <= i < |more| && more[i].Register?
      ensures exists k: nat :: k < drawn + 1 && more[i].token == random(k)
    {
      if i < |acts| {
        assert acts[i].Register?;
        var k: nat :| k < drawn && acts[i].token == random(k);
        assert more[i].token == random(k);
      } else {
        assert more[i].token == random(drawn);
      }
    }
    forall i | 0 <= i < |acts| && acts[i].Register? ensures acts[i].token != a.token {
      var k: nat :| k < drawn && acts[i].token == random(k);
    }
  }

  class SpanRuntime {
    const bounds: Bounds
    const maxNodes: nat
    const collapse: bool
    const clock: Bytes -> Option<int>
    const random: nat -> Token

    /** Under the mutex. */
    var started: bool
    var stopping: bool
    var running: bool
    var registrations: map<Token, Scope>
    var drawn: nat
    ghost var acts: seq<Act>

    /** The consumer's own. */
    var pending: map<nat, F.Pending>
    var frames: map<nat, nat>
    var made: seq<Tree>
    var live: set<nat>
    var active: map<nat, nat>
    var counts: map<nat, int>
    ghost var consumed: seq<Event>
    ghost var exports: seq<Export>
    ghost var run: Run

    ghost function Registered(): Registry
      reads this`started, this`stopping, this`running, this`registrations
    {
      Registry(started, stopping, running, registrations)
    }

    ghost function Now(): Forest
      reads this`pending, this`frames, this`made, this`live, this`active, this`counts
    {
      F.Forest(pending, frames, made, live, active, counts)
    }

    ghost predicate Shared()
      reads this`started, this`stopping, this`running, this`registrations, this`drawn, this`acts, this`exports
    {
      RegistryOk(bounds, random, drawn, Registered(), acts, exports)
    }

    /** What the consumer keeps between two events, whatever the clients do. */
    ghost predicate Followed()
      reads this`pending, this`frames, this`made, this`live, this`active, this`counts, this`consumed, this`exports
    {
      && AllLinked(Now(), consumed, maxNodes) && Tally(Now(), |P.Starts(consumed)|, bounds.maxPending)
      && P.History(consumed) && (forall i :: 0 <= i < |consumed| ==> Valid(consumed[i].plan))
      && (forall i :: 0 <= i < |exports| ==> Faithful(consumed, exports[i], maxNodes, clock, collapse))
    }

    ghost predicate Steady()
      reads this`started, this`stopping, this`running, this`registrations, this`drawn, this`acts, this`exports
      reads this`pending, this`frames, this`made, this`live, this`active, this`counts, this`consumed
    {
      Shared() && Followed()
    }

    ghost function Settings(): Config {
      Config(bounds, maxNodes, clock)
    }

    /** Besides, the run so far explains what was read, what is kept and what was exported. */
    ghost predicate Ok()
      reads this
    {
      Steady() && Explains(Settings(), acts, run, consumed, Now(), exports)
    }

    constructor (bounds: Bounds, collapse: bool, clock: Bytes -> Option<int>, random: nat -> Token)
      requires NeverRepeats(random)
      ensures this.bounds == bounds && this.collapse == collapse && this.clock == clock && this.random == random
      ensures maxNodes == if collapse then 512 else 128
      ensures Ok() && acts == [] && consumed == [] && exports == [] && run.turns == [] && Now() == F.BARE
    {
      this.bounds, this.collapse, this.clock, this.random := bounds, collapse, clock, random;
      maxNodes := if collapse then 512 else 128;
      started, stopping, running, registrations, drawn, acts := false, false, false, map[], 0, [];
      pending, frames, made, live, active, counts := map[], map[], [], {}, map[], map[];
      consumed, exports, run := [], [], Run([], [F.BARE]);
      new;
      BareExplained(Settings());
      P.EmptyIsSafe();
      P.SafeHistory(P.EMPTY, []);
      BareTally(bounds.maxPending);
    }

    // ---- client calls, and the start of the runtime

    /** The end of a successful Start. */
    method Begin()
      requires Shared()
      modifies this`started, this`running, this`acts
      ensures Shared() && acts == old(acts) + [Act.Begin]
    {
      hide RegistryOk;
      ActKeeps(bounds, random, drawn, Registered(), acts, exports, Act.Begin);
      if !started {
        started := true;
        running := !stopping;
      }
      acts := acts + [Act.Begin];
    }

    method DropExpired(now: int)
      modifies this`registrations
      ensures registrations == Unexpired(bounds, old(registrations), now)
    {
      var todo := registrations.Keys;
      while todo != {}
        invariant todo <= registrations.Keys <= old(registrations).Keys
        invariant forall k :: k in registrations ==> registrations[k] == old(registrations)[k]
        invariant forall k :: k in old(registrations) && k !in todo ==>
          (k in registrations <==> !Expired(bounds, old(registrations)[k], now))
        decreases |todo|
      {
        var k :| k in todo;
        todo := todo - {k};
        if Expired(bounds, registrations[k], now) {
          registrations := registrations - {k};
        }
      }
    }

    /** The token, or nothing when the span is not sampled, the runtime does not run, or too many scopes are open. */
    method Register(client: SpanContext, now: int) returns (token: Option<Token>)
      requires Shared()
      modifies this`registrations, this`drawn, this`acts
      ensures Shared()
      ensures token == if Issues(bounds, old(Registered()), client, now) then Some(random(old(drawn))) else None
      ensures acts == if client.valid && !client.sampled then old(acts)
                      else old(acts) + [Act.Register(client, random(old(drawn)), now)]
    {
      hide RegistryOk;
      if client.valid && !client.sampled {
        return None;
      }
      RegisterKeeps(bounds, random, drawn, Registered(), acts, exports, client, now);
      var t := random(drawn);
      acts := acts + [Act.Register(client, t, now)];
      drawn := drawn + 1;
      if !running {
        return None;
      }
      DropExpired(now);
      if |registrations| >= bounds.maxPending {
        return None;
      }
      registrations := registrations[t := Scope(NO_CONTEXT, now, None)];
      token := Some(t);
    }

    method MarkerComplete(token: Token, now: int)
      requires Shared()
      modifies this`registrations, this`acts
      ensures Shared() && acts == old(acts) + [Act.MarkerComplete(token, now)]
    {
      hide RegistryOk;
      ActKeeps(bounds, random, drawn, Registered(), acts, exports, Act.MarkerComplete(token, now));
      if token in registrations {
        registrations := registrations[token := registrations[token].(markerCompleted := Some(now))];
      }
      acts := acts + [Act.MarkerComplete(token, now)];
    }

    /** Supplies the span of the client, or gives the scope up when there is none to export under. */
    method Bind(token: Token, client: SpanContext)
      requires Shared()
      modifies this`registrations, this`acts
      ensures Shared() && acts == old(acts) + [Act.Bind(token, client)]
    {
      hide RegistryOk;
      ActKeeps(bounds, random, drawn, Registered(), acts, exports, Act.Bind(token, client));
      if token in registrations {
        if client.valid && client.sampled {
          registrations := registrations[token := registrations[token].(parent := client)];
        } else {
          registrations := registrations - {token};
        }
      }
      acts := acts + [Act.Bind(token, client)];
    }

    method Discard(token: Token)
      requires Shared()
      modifies this`registrations, this`acts
      ensures Shared() && acts == old(acts) + [Act.Discard(token)]
    {
      hide RegistryOk;
      ActKeeps(bounds, random, drawn, Registered(), acts, exports, Act.Discard(token));
      registrations := registrations - {token};
      acts := acts + [Act.Discard(token)];
    }

    method Shutdown()
      requires Shared()
      modifies this`running, this`stopping, this`acts
      ensures Shared() && acts == old(acts) + [Stop]
    {
      hide RegistryOk;
      ActKeeps(bounds, random, drawn, Registered(), acts, exports, Stop);
      running := false;
      stopping := true;
      acts := acts + [Stop];
    }

    method Perform(c: Call)
      requires Shared()
      modifies this`registrations, this`running, this`stopping, this`drawn, this`acts
      ensures Shared() && old(acts) <= acts
    {
      match c {
        case CallRegister(client, at) => var t := Register(client, at);
        case CallMarkerComplete(token, at) => MarkerComplete(token, at);
        case CallBind(token, client) => Bind(token, client);
        case CallDiscard(token) => Discard(token);
        case CallShutdown => Shutdown();
      }
    }

    /** Whatever client goroutines do before the consumer gets the mutex: any calls, any number of them. */
    method Clients()
      requires Shared()
      modifies this`registrations, this`running, this`stopping, this`drawn, this`acts
      ensures Shared() && old(acts) <= acts
    {
      var n: nat := *;
      while n > 0
        invariant Shared() && old(acts) <= acts
      {
        var c: Call := *;
        Perform(c);
        n := n - 1;
      }
    }

    // ---- the consumer takes the mutex

    method Find(token: Token) returns (s: Option<Scope>, ghost at: nat)
      requires Shared()
      modifies this`registrations, this`running, this`stopping, this`drawn, this`acts
      ensures Shared() && old(acts) <= acts && |old(acts)| <= at && at == |acts| - 1
      ensures acts[at].Lookup? && acts[at].token == token
      ensures s == Found(bounds, After(bounds, acts[..at]), token, acts[at].now)
      ensures Asked(bounds, acts, |old(acts)|, |acts|, token, s)
    {
      hide RegistryOk, After;
      Clients();
      var now: int := *;
      ghost var a := Act.Lookup(token, now);
      ActKeeps(bounds, random, drawn, Registered(), acts, exports, a);
      LookupIsFound(bounds, random, drawn, Registered(), acts, exports, a);
      at := |acts|;
      acts := acts + [a];
      s := None;
      if token in registrations {
        if now - registrations[token].registered > bounds.retention {
          registrations := registrations - {token};
        } else {
          s := Some(registrations[token]);
        }
      }
      assert AnsweredAt(bounds, acts, at, token, s);
    }

    /** The consumer discards a token. */
    method Withdraw(token: Token)
      requires Shared()
      modifies this`registrations, this`running, this`stopping, this`drawn, this`acts
      ensures Shared() && old(acts) < acts && acts[|acts| - 1] == Act.Discard(token)
      ensures Withdrawn(acts, |old(acts)|, |acts|, token)
    {
      Clients();
      Discard(token);
    }

    // ---- giving trees up

    method RemoveFrames(id: nat)
      modifies this`frames
      ensures frames == F.FramesWithout(old(frames), {id})
    {
      var todo := frames.Keys;
      while todo != {}
        invariant todo <= frames.Keys <= old(frames).Keys
        invariant forall n :: n in frames ==> frames[n] == old(frames)[n]
        invariant forall n :: n in old(frames) && n !in todo ==> (n in frames <==> old(frames)[n] != id)
        decreases |todo|
      {
        var n :| n in todo;
        todo := todo - {n};
        if frames[n] == id {
          frames := frames - {n};
        }
      }
    }

    method RemoveActive(attachment: nat)
      modifies this`active
      ensures active == map n | n in old(active) && old(active)[n] != attachment :: old(active)[n]
    {
      var todo := active.Keys;
      while todo != {}
        invariant todo <= active.Keys <= old(active).Keys
        invariant forall n :: n in active ==> active[n] == old(active)[n]
        invariant forall n :: n in old(active) && n !in todo ==> (n in active <==> old(active)[n] != attachment)
        decreases |todo|
      {
        var n :| n in todo;
        todo := todo - {n};
        if active[n] == attachment {
          active := active - {n};
        }
      }
    }

    method Drop(id: nat)
      requires Shared() && id < |made|
      modifies this`frames, this`live, this`registrations, this`running, this`stopping, this`drawn, this`acts
      ensures Shared() && old(acts) < acts && Now() == F.Without(old(Now()), {id})
      ensures Withdrawn(acts, |old(acts)|, |acts|, made[id].token)
    {
      hide RegistryOk;
      RemoveFrames(id);
      live := live - {id};
      Withdraw(made[id].token);
    }

    method WithdrawPending()
      requires Shared()
      modifies this`registrations, this`running, this`stopping, this`drawn, this`acts
      ensures Shared() && old(acts) <= acts
      ensures PendingWithdrawn(acts, |old(acts)|, |acts|, pending, pending.Keys)
    {
      hide RegistryOk, Withdrawn;
      var todo := pending.Keys;
      while todo != {}
        invariant todo <= pending.Keys && Shared() && old(acts) <= acts
        invariant PendingWithdrawn(acts, |old(acts)|, |acts|, pending, pending.Keys - todo)
        decreases |todo|
      {
        var a :| a in todo;
        ghost var before := acts;
        Withdraw(pending[a].token);
        PendingWithdrawnLonger(
          before, |old(acts)|, |before|, pending, pending.Keys - todo, acts, |old(acts)|, |acts|);
        WithdrawnLonger(acts, |before|, |acts|, pending[a].token, acts, |old(acts)|, |acts|);
        todo := todo - {a};
      }
    }

    /** Drops the trees in `gone`, in whatever order the map gives them. */
    method DropAll(gone: set<nat>)
      requires Shared() && gone <= live && forall id :: id in live ==> id < |made|
      modifies this`frames, this`live, this`registrations, this`running, this`stopping, this`drawn, this`acts
      ensures Shared() && old(acts) <= acts && Now() == F.Without(old(Now()), gone)
      ensures TreesWithdrawn(acts, |old(acts)|, |acts|, made, gone)
    {
      hide RegistryOk, Withdrawn;
      var todo := gone;
      WithoutNothing(Now());
      while todo != {}
        invariant todo <= gone && todo <= live && live <= old(live) && Shared() && old(acts) <= acts
        invariant Now() == F.Without(old(Now()), gone - todo)
        invariant TreesWithdrawn(acts, |old(acts)|, |acts|, made, gone - todo)
        decreases |todo|
      {
        var id :| id in todo;
        WithoutMore(old(Now()), gone - todo, id);
        assert gone - (todo - {id}) == (gone - todo) + {id};
        ghost var before := acts;
        Drop(id);
        TreesWithdrawnLonger(before, |old(acts)|, |before|, made, gone - todo, acts, |old(acts)|, |acts|);
        WithdrawnLonger(acts, |before|, |acts|, made[id].token, acts, |old(acts)|, |acts|);
        todo := todo - {id};
      }
      assert gone - todo == gone;
    }

    method Invalidate()
      requires Shared() && F.Rooted(Now())
      modifies this`pending, this`active, this`counts, this`frames, this`live,
               this`registrations, this`running, this`stopping, this`drawn, this`acts
      ensures Shared() && old(acts) <= acts && Now() == F.Cleared(old(Now()))
      ensures GivenUp(acts, |old(acts)|, |acts|, old(Now()), 0)
    {
      hide RegistryOk, F.Without, F.Rooted, TreesWithdrawn, PendingWithdrawn;
      RootedIsMade(Now());
      DropAll(live);
      ghost var before := acts;
      WithdrawPending();
      TreesWithdrawnLonger(before, |old(acts)|, |before|, made, old(live), acts, |old(acts)|, |acts|);
      PendingWithdrawnLonger(acts, |before|, |acts|, pending, pending.Keys, acts, |old(acts)|, |acts|);
      pending, active, counts := map[], map[], map[];
      WithoutFields(old(Now()), old(live));
    }

    /** Gives up what runs on one attachment; events without one leave nothing to rely on. */
    method InvalidateAttachment(attachment: nat)
      requires Shared() && F.Rooted(Now())
      modifies this`pending, this`active, this`counts, this`frames, this`live,
               this`registrations, this`running, this`stopping, this`drawn, this`acts
      ensures Shared() && old(acts) <= acts && Now() == F.ClearedAttachment(old(Now()), attachment)
      ensures GivenUp(acts, |old(acts)|, |acts|, old(Now()), attachment)
    {
      hide RegistryOk, F.Without, F.TreesOf, F.Cleared, F.Rooted, TreesWithdrawn, PendingWithdrawn;
      if attachment == 0 {
        Invalidate();
      } else {
        DropTreesOf(attachment);
        WithoutFields(old(Now()), F.TreesOf(old(Now()), attachment));
        ghost var before := acts;
        WithdrawAnnounced(attachment);
        TreesWithdrawnLonger(
          before, |old(acts)|, |before|, made, F.TreesOf(old(Now()), attachment), acts, |old(acts)|, |acts|);
        PendingWithdrawnLonger(acts, |before|, |acts|, old(pending), {attachment}, acts, |old(acts)|, |acts|);
        RemoveActive(attachment);
        counts := counts - {attachment};
      }
    }

    method WithdrawAnnounced(attachment: nat)
      requires Shared()
      modifies this`pending, this`registrations, this`running, this`stopping, this`drawn, this`acts
      ensures Shared() && old(acts) <= acts && pending == old(pending) - {attachment}
      ensures PendingWithdrawn(acts, |old(acts)|, |acts|, old(pending), {attachment})
    {
      hide RegistryOk, Withdrawn;
      if attachment in pending {
        Withdraw(pending[attachment].token);
      }
      pending := pending - {attachment};
    }

    method DropTreesOf(attachment: nat)
      requires Shared() && F.Rooted(Now())
      modifies this`frames, this`live, this`registrations, this`running, this`stopping, this`drawn, this`acts
      ensures Shared() && old(acts) <= acts && Now() == F.Without(old(Now()), F.TreesOf(old(Now()), attachment))
      ensures TreesWithdrawn(acts, |old(acts)|, |acts|, made, F.TreesOf(old(Now()), attachment))
    {
      hide RegistryOk, F.Without, TreesWithdrawn;
      var gone := set id | id in live && made[id].nodes[0].start.attachment == attachment;
      assert gone == F.TreesOf(Now(), attachment);
      DropAll(gone);
    }

    // ---- flushing

    method RemoveNumbers(numbers: set<nat>)
      modifies this`frames
      ensures frames == old(frames) - numbers
    {
      var todo := numbers;
      while todo != {}
        invariant todo <= numbers && frames == old(frames) - (numbers - todo)
        decreases |todo|
      {
        var n :| n in todo;
        assert old(frames) - (numbers - todo) - {n} == old(frames) - (numbers - (todo - {n}));
        todo := todo - {n};
        frames := frames - {n};
      }
      assert numbers - todo == numbers;
    }

    /** The frames, the tree and its token go. */
    method Leave(id: nat, ghost scope: Scope)
      requires Shared() && id < |made| && made[id].complete && scope.parent.valid
      modifies this`frames, this`live, this`registrations, this`running, this`stopping, this`drawn, this`acts
      ensures Shared() && old(acts) < acts && acts[|acts| - 1] == Act.Discard(made[id].token)
      ensures Now() == F.Flushed(old(Now()), id, Some(scope)) && Withdrawn(acts, |old(acts)|, |acts|, made[id].token)
    {
      hide RegistryOk, Withdrawn;
      RemoveNumbers(made[id].index.Keys);
      live := live - {id};
      Withdraw(made[id].token);
    }

    /** A tree that is complete and bound leaves: its spans are sent, its frames and its token go. */
    method ExportTree(id: nat, scope: Scope, ghost before: seq<Act>, ghost at: nat)
      requires Shared() && id in live && id < |made| && made[id].complete
      requires TreeOk(made[id], consumed, maxNodes) && P.History(consumed)
      requires forall i :: 0 <= i < |consumed| ==> Valid(consumed[i].plan)
      requires before <= acts && |before| <= at == |acts| - 1 && ExportsOk(bounds, before, exports)
      requires acts[at].Lookup? && acts[at].token == made[id].token && scope.parent.valid
      requires Found(bounds, After(bounds, acts[..at]), made[id].token, acts[at].now) == Some(scope)
      modifies this`frames, this`live, this`exports, this`registrations, this`running, this`stopping, this`drawn,
               this`acts
      ensures Shared() && old(acts) <= acts && Now() == F.Flushed(old(Now()), id, Some(scope))
      ensures |exports| == |old(exports)| + 1 && exports[..|old(exports)|] == old(exports)
      ensures Faithful(consumed, exports[|old(exports)|], maxNodes, clock, collapse)
      ensures exports[|old(exports)|].job.tree == made[id] && exports[|old(exports)|].job.scope == scope
      ensures Withdrawn(acts, |old(acts)|, |acts|, made[id].token)
    {
      hide RegistryOk, TreeOk, Whole, JobOk, Authorised, Faithful, After, Found, P.History, S.PlansOk, ExportsOk;
      hide G.Selection, G.SequencesOf, S.SentSpans, F.Flushed, Withdrawn;
      var t := made[id];
      CompleteIsWhole(t, consumed, maxNodes);
      PlansAreValid(t, consumed, maxNodes);
      TreeIsNotEmpty(t, consumed, maxNodes);
      var spans, job := S.SendTree(clock, collapse, t, scope);
      ghost var looked := acts;
      Leave(id, scope);
      ghost var x := Export(at, |acts| - 1, |consumed|, job, spans);
      JobIsOk(job, clock, collapse);
      MakeFaithful(consumed, x, maxNodes, clock, collapse);
      MakeAuthorised(bounds, looked, acts, x);
      RecordExport(bounds, random, drawn, Registered(), before, acts, exports, x);
      exports := exports + [x];
    }

    /** The same, with everything the consumer keeps. */
    method SendBound(id: nat, scope: Scope, ghost before: seq<Act>, ghost at: nat)
      requires Steady() && id in live && id < |made| && made[id].complete
      requires before <= acts && |before| <= at == |acts| - 1 && ExportsOk(bounds, before, exports)
      requires acts[at].Lookup? && acts[at].token == made[id].token && scope.parent.valid
      requires Found(bounds, After(bounds, acts[..at]), made[id].token, acts[at].now) == Some(scope)
      modifies this`frames, this`live, this`exports, this`registrations, this`running, this`stopping, this`drawn,
               this`acts
      ensures Steady() && old(acts) <= acts && old(exports) <= exports
      ensures Now() == F.Flushed(old(Now()), id, Some(scope)) && Withdrawn(acts, |old(acts)|, |acts|, made[id].token)
      ensures Jobs(exports) == Jobs(old(exports)) + [Sending(made[id], scope)]
    {
      hide RegistryOk, TreeOk, AllLinked, Tally, P.History, After, Found, Faithful, Valid, Withdrawn, Jobs, ExportsOk;
      hide F.Flushed;
      TreeIsLinked(Now(), consumed, id, maxNodes);
      FlushedKeeps(Now(), consumed, id, Some(scope), maxNodes);
      FlushedTally(Now(), id, Some(scope), |P.Starts(consumed)|, bounds.maxPending);
      ghost var sent := exports;
      ExportTree(id, scope, before, at);
      JobsAppend(sent, exports[|sent|]);
      assert exports == sent + [exports[|sent|]];
    }

    /** A tree whose token is gone is given up. */
    method GiveUp(id: nat)
      requires Steady() && id in live && id < |made|
      modifies this`frames, this`live, this`registrations, this`running, this`stopping, this`drawn, this`acts
      ensures Steady() && old(acts) <= acts
      ensures Now() == F.Flushed(old(Now()), id, None) && Withdrawn(acts, |old(acts)|, |acts|, made[id].token)
    {
      hide RegistryOk, AllLinked, Tally, P.History, Faithful, Valid, Withdrawn, F.Without;
      FlushedKeeps(Now(), consumed, id, None, maxNodes);
      FlushedTally(Now(), id, None, |P.Starts(consumed)|, bounds.maxPending);
      Drop(id);
    }

    /** A tree that is followed is there, and the exports so far are recorded. */
    lemma LiveIsMade(id: nat)
      requires Steady() && id in live
      ensures id < |made| && ExportsOk(bounds, acts, exports)
    {
      hide RegistryOk, AllLinked, ExportsOk;
      TreeIsLinked(Now(), consumed, id, maxNodes);
      ExportsOf(bounds, random, drawn, Registered(), acts, exports);
    }

    /** One tree of a flush: given up when its token is gone, sent when it is complete and bound, kept otherwise. */
    method FlushTree(id: nat) returns (ghost answer: Option<Scope>)
      requires Steady() && id in live
      modifies this`frames, this`live, this`exports, this`registrations, this`running, this`stopping, this`drawn,
               this`acts
      ensures Steady() && old(acts) <= acts && old(exports) <= exports
      ensures id < |made| && old(live) - {id} <= live && Now() == F.Flushed(old(Now()), id, answer)
      ensures VisitOk(bounds, acts, |old(acts)|, |acts|, old(Now()), Visit(id, answer))
      ensures Jobs(exports) == Jobs(old(exports))
        + if F.Exports(old(Now()), id, answer) then [Sending(made[id], answer.value)] else []
    {
      hide RegistryOk, Followed, After, Found, F.Without, Asked, Withdrawn, Jobs, ExportsOk;
      LiveIsMade(id);
      ghost var before := acts;
      var s, at := Find(made[id].token);
      answer := s;
      FlushedLive(Now(), id, s);
      ghost var looked := acts;
      if s.None? {
        GiveUp(id);
        WithdrawnLonger(acts, |looked|, |acts|, made[id].token, acts, |before|, |acts|);
      } else if made[id].complete && s.value.parent.valid {
        SendBound(id, s.value, before, at);
        WithdrawnLonger(acts, |looked|, |acts|, made[id].token, acts, |before|, |acts|);
      }
      AskedLonger(bounds, looked, |before|, |looked|, made[id].token, s, acts, |before|, |acts|);
    }

    method Flush() returns (ghost visits: seq<Visit>)
      requires Steady()
      modifies this`frames, this`live, this`exports, this`registrations, this`running, this`stopping, this`drawn,
               this`acts
      ensures Steady() && old(acts) <= acts && old(exports) <= exports
      ensures Now() == Swept(old(Now()), visits)
      ensures FlushOk(bounds, acts, |old(acts)|, |acts|, old(Now()), visits)
      ensures Jobs(exports) == Jobs(old(exports)) + Sent(old(Now()), visits)
    {
      hide RegistryOk, Followed, VisitOk, Sent, Swept, Jobs, F.Flushed;
      ghost var f := Now();
      var todo := live;
      visits := [];
      NothingSwept(f);
      while todo != {}
        invariant Steady() && old(acts) <= acts && old(exports) <= exports && todo <= live
        invariant Now() == Swept(f, visits) && PartlyFlushed(bounds, acts, |old(acts)|, f, visits, todo)
        invariant Jobs(exports) == Jobs(old(exports)) + Sent(f, visits)
        decreases |todo|
      {
        var id :| id in todo;
        ghost var before := acts;
        ghost var answer := FlushTree(id);
        SweptFields(f, visits);
        OneVisitMore(bounds, before, acts, |old(acts)|, f, visits, todo, id, answer);
        SweptAppend(f, visits, Visit(id, answer));
        SentAppend(f, visits, Visit(id, answer));
        todo := todo - {id};
        visits := visits + [Visit(id, answer)];
      }
    }

    // ---- events

    /** The event joins what has been read. */
    ghost method Accept(e: Event)
      requires Shared() && P.History(consumed + [e]) && Valid(e.plan)
      requires AllLinked(Now(), consumed + [e], maxNodes) && Tally(Now(), |P.Starts(consumed + [e])|, bounds.maxPending)
      requires forall i :: 0 <= i < |consumed| ==> Valid(consumed[i].plan)
      requires forall i :: 0 <= i < |exports| ==> Faithful(consumed, exports[i], maxNodes, clock, collapse)
      modifies this`consumed
      ensures Steady() && consumed == old(consumed) + [e]
    {
      hide RegistryOk, AllLinked, Tally, P.History, Faithful, Valid;
      forall i | 0 <= i < |exports| ensures Faithful(consumed + [e], exports[i], maxNodes, clock, collapse) {
        FaithfulStays(consumed, [e], exports[i], maxNodes, clock, collapse);
      }
      consumed := consumed + [e];
    }

    method Announce(e: Event) returns (ghost found: Option<Scope>)
      requires Shared()
      modifies this`pending, this`registrations, this`running, this`stopping, this`drawn, this`acts
      ensures Shared() && old(acts) <= acts
      ensures Asked(bounds, acts, |old(acts)|, |acts|, e.scopeToken, found)
      ensures Now() == F.Announced(old(Now()), e, found.Some?, clock(e.timestamp), bounds.maxPending)
    {
      hide RegistryOk, After, Found, F.Announced, Asked;
      ghost var f := Now();
      pending := pending - {e.attachment};
      var anchor := clock(e.timestamp);
      var s, at := Find(e.scopeToken);
      found := s;
      AnnouncedPending(f, e, found.Some?, anchor, bounds.maxPending);
      if s.Some? && anchor.Some? && e.attachment > 0 && |pending| < bounds.maxPending {
        pending := pending[e.attachment := F.Pending(e.scopeToken, anchor.value)];
      }
    }

    /** The tree a start belongs to: a new one when it was announced, or the one of its parent. */
    method OpenTree(e: Event) returns (tree: Option<nat>, ghost announced: Option<Scope>)
      requires Shared()
      modifies this`pending, this`made, this`live, this`registrations, this`running, this`stopping, this`drawn,
               this`acts
      ensures Shared() && old(acts) <= acts && (Now(), tree) == F.Opened(old(Now()), e, announced.Some?)
      ensures F.TakesPending(old(Now()), e) ==>
        Asked(bounds, acts, |old(acts)|, |acts|, old(pending)[e.attachment].token, announced)
    {
      hide RegistryOk, After, Found, Asked;
      announced := None;
      tree := if e.parent in frames then Some(frames[e.parent]) else None;
      var busy := if e.attachment in counts then counts[e.attachment] else 0;
      if e.attachment in pending && e.kind == Statement && e.parent == 0 && busy == 0 {
        var p := pending[e.attachment];
        pending := pending - {e.attachment};
        var s, at := Find(p.token);
        announced := s;
        if s.Some? {
          tree := Some(|made|);
          live := live + {|made|};
          made := made + [F.Tree(p.token, p.anchor, [], map[], false, false)];
        }
      }
    }

    method Activate(e: Event)
      modifies this`active, this`counts
      ensures Now() == F.Activated(old(Now()), e)
    {
      if e.attachment > 0 {
        active := active[e.sequence := e.attachment];
        counts := counts[e.attachment := (if e.attachment in counts then counts[e.attachment] else 0) + 1];
      }
    }

    method StartEvent(e: Event) returns (ghost announced: Option<Scope>, ghost found: Option<Scope>)
      requires Shared() && F.Sound(Now())
      modifies this`pending, this`frames, this`made, this`live, this`active, this`counts,
               this`registrations, this`running, this`stopping, this`drawn, this`acts
      ensures Shared() && old(acts) <= acts
      ensures Now() == F.Started(old(Now()), e, announced.Some?, found.Some?, maxNodes)
      ensures StartOk(Settings(), acts, |old(acts)|, |acts|, old(Now()), e, announced, found)
    {
      hide RegistryOk, F.Sound, F.Opened, F.Activated, F.Joined, Asked, Withdrawn;
      ghost var f, before := Now(), acts;
      TreeIsMade(f, e, false);
      TreeIsMade(f, e, true);
      OpenedFrames(f, e, false);
      OpenedFrames(f, e, true);
      var tree: Option<nat>;
      tree, announced := OpenTree(e);
      ghost var middle := acts;
      Activate(e);
      ActivatedTrees(F.Opened(f, e, announced.Some?).0, e);
      found := None;
      if tree.Some? {
        found := JoinTree(tree.value, e);
        JoinLonger(bounds, acts, |middle|, F.Opened(f, e, announced.Some?).0.made[tree.value].token, found, |before|);
      }
      if F.TakesPending(f, e) {
        AskedLonger(
          bounds, middle, |before|, |middle|, f.pending[e.attachment].token, announced, acts, |before|, |acts|);
      }
    }

    method JoinTree(id: nat, e: Event) returns (ghost found: Option<Scope>)
      requires Shared() && id < |made|
      modifies this`frames, this`made, this`live, this`registrations, this`running, this`stopping, this`drawn, this`acts
      ensures Shared() && old(acts) <= acts && Now() == F.Joined(old(Now()), id, e, found.Some?, maxNodes)
      ensures Asked(bounds, acts, |old(acts)|, |acts|, old(made)[id].token, found)
      ensures found.None? || |old(frames)| >= F.MAX_FRAMES ==> Withdrawn(acts, |old(acts)|, |acts|, old(made)[id].token)
    {
      hide RegistryOk, F.Without, After, Found, Asked, Withdrawn;
      ghost var before := acts;
      var t := made[id];
      var s, at := Find(t.token);
      found := s;
      ghost var looked := acts;
      if s.None? || |frames| >= F.MAX_FRAMES {
        Drop(id);
        WithdrawnLonger(acts, |looked|, |acts|, t.token, acts, |before|, |acts|);
      } else if |t.nodes| >= maxNodes {
        made := made[id := t.(omitted := true)];
        frames := frames[e.sequence := id];
      } else {
        made := made[id := t.(nodes := t.nodes + [F.Node(e, None)], index := t.index[e.sequence := |t.nodes|])];
        frames := frames[e.sequence := id];
      }
      AskedLonger(bounds, looked, |before|, |looked|, t.token, s, acts, |before|, |acts|);
    }

    method FinishEvent(e: Event) returns (complete: bool)
      requires F.Sound(Now())
      modifies this`frames, this`made, this`active, this`counts
      ensures Now() == F.Finished(old(Now()), e) && complete == F.Completes(old(Now()), e)
    {
      complete := false;
      if e.sequence in active {
        var a := active[e.sequence];
        active := active - {e.sequence};
        var left := (if a in counts then counts[a] else 0) - 1;
        counts := if left == 0 then counts - {a} else counts[a := left];
      }
      if e.sequence in frames {
        var id := frames[e.sequence];
        var t := made[id];
        frames := frames - {e.sequence};
        if e.sequence in t.index {
          var i := t.index[e.sequence];
          complete := i == 0;
          made := made[id := t.(
            nodes := t.nodes[i := t.nodes[i].(finish := Some(e))], complete := t.complete || i == 0)];
        }
      }
    }

    /** Anything that is neither the start nor the end of an execution. */
    method TakeOther(e: Event) returns (ghost found: Option<Scope>)
      requires Steady() && P.History(consumed + [e]) && Valid(e.plan) && !Collects(e) && !Ends(e)
      modifies this`pending, this`active, this`counts, this`frames, this`live, this`consumed,
               this`registrations, this`running, this`stopping, this`drawn, this`acts
      ensures Steady() && old(acts) <= acts && consumed == old(consumed) + [e]
      ensures F.Sound(old(Now())) && F.Rooted(old(Now()))
      ensures Now() == Consumed(Settings(), old(Now()), e, false, found.Some?)
      ensures EventOk(Settings(), acts, |old(acts)|, |acts|, old(Now()), e, None, found)
    {
      hide RegistryOk, AllLinked, Tally, P.History, Faithful, Valid, F.Sound, F.Rooted, F.Cleared, F.ClearedAttachment;
      hide F.Announced, GivenUp, Asked, Withdrawn;
      found := None;
      ghost var started := |P.Starts(consumed)|;
      LinkedIsRooted(Now(), consumed, maxNodes);
      SoundOf(Now(), consumed, maxNodes);
      EventIsPhased(consumed, e);
      if e.kind == Gap {
        ClearedKeeps(Now(), consumed, maxNodes);
        ClearedTally(Now(), started, bounds.maxPending);
        Invalidate();
      } else if e.scopeToken != [] {
        if e.phase == Finish {
          found := TakeMarker(e);
        }
      } else if e.sequence == 0 && e.incomplete && e.kind in {Statement, Procedure, Function, Trigger} {
        ClearedAttachmentKeeps(Now(), consumed, e.attachment, maxNodes);
        ClearedAttachmentTally(Now(), e.attachment, started, bounds.maxPending);
        InvalidateAttachment(e.attachment);
      }
      ReadNeutral(Now(), consumed, e, maxNodes, bounds.maxPending);
      Accept(e);
    }

    /** The end of a marker query. */
    method TakeMarker(e: Event) returns (ghost found: Option<Scope>)
      requires Shared() && AllLinked(Now(), consumed, maxNodes) && Tally(Now(), |P.Starts(consumed)|, bounds.maxPending)
      modifies this`pending, this`active, this`counts, this`frames, this`live,
               this`registrations, this`running, this`stopping, this`drawn, this`acts
      ensures Shared() && old(acts) <= acts
      ensures AllLinked(Now(), consumed, maxNodes) && Tally(Now(), |P.Starts(consumed)|, bounds.maxPending)
      ensures F.Rooted(old(Now()))
      ensures if e.sequence == 0 || e.correlation == Unmatched then
          && Now() == F.ClearedAttachment(old(Now()), e.attachment)
          && Withdrawn(acts, |old(acts)|, |acts|, e.scopeToken)
          && GivenUp(acts, |old(acts)|, |acts|, old(Now()), e.attachment)
        else
          && Now() == F.Announced(old(Now()), e, found.Some?, clock(e.timestamp), bounds.maxPending)
          && Asked(bounds, acts, |old(acts)|, |acts|, e.scopeToken, found)
    {
      hide RegistryOk, AllLinked, Tally, F.Rooted, F.ClearedAttachment, After, Asked, Withdrawn, GivenUp;
      ghost var started := |P.Starts(consumed)|;
      ghost var f, before := Now(), acts;
      found := None;
      LinkedIsRooted(f, consumed, maxNodes);
      if e.sequence == 0 || e.correlation == Unmatched {
        ClearedAttachmentKeeps(f, consumed, e.attachment, maxNodes);
        ClearedAttachmentTally(f, e.attachment, started, bounds.maxPending);
        Withdraw(e.scopeToken);
        ghost var middle := acts;
        InvalidateAttachment(e.attachment);
        WithdrawnLonger(middle, |before|, |middle|, e.scopeToken, acts, |before|, |acts|);
        GivenUpLonger(acts, |middle|, |acts|, f, e.attachment, acts, |before|, |acts|);
      } else {
        found := Announce(e);
        OtherFieldsKeep(f, Now(), consumed, maxNodes);
        AnnouncedTally(f, e, found.Some?, clock(e.timestamp), started, bounds.maxPending);
      }
    }

    method TakeStart(e: Event) returns (ghost announced: Option<Scope>, ghost found: Option<Scope>)
      requires Steady() && P.History(consumed + [e]) && Valid(e.plan) && Collects(e)
      modifies this`pending, this`frames, this`made, this`live, this`active, this`counts, this`consumed,
               this`registrations, this`running, this`stopping, this`drawn, this`acts
      ensures Steady() && old(acts) <= acts && consumed == old(consumed) + [e]
      ensures F.Sound(old(Now())) && Now() == F.Started(old(Now()), e, announced.Some?, found.Some?, maxNodes)
      ensures StartOk(Settings(), acts, |old(acts)|, |acts|, old(Now()), e, announced, found)
    {
      hide RegistryOk, AllLinked, Tally, P.History, Faithful, Valid, F.Started, P.Starts, StartOk, F.Sound;
      ghost var f := Now();
      SoundOf(f, consumed, maxNodes);
      announced, found := StartEvent(e);
      StartedKeeps(f, consumed, e, announced.Some?, found.Some?, maxNodes);
      NewestStart(consumed, e);
      P.StartsAppend(consumed, e);
      StartedTally(f, e, announced.Some?, found.Some?, maxNodes, |P.Starts(consumed)|, bounds.maxPending);
      Accept(e);
    }

    method TakeFinish(e: Event) returns (ghost visits: seq<Visit>)
      requires Steady() && P.History(consumed + [e]) && Valid(e.plan) && Ends(e)
      modifies this`frames, this`made, this`live, this`active, this`counts, this`consumed, this`exports,
               this`registrations, this`running, this`stopping, this`drawn, this`acts
      ensures Steady() && old(acts) <= acts && old(exports) <= exports && consumed == old(consumed) + [e]
      ensures F.Sound(old(Now())) && Now() == Swept(F.Finished(old(Now()), e), visits)
      ensures Jobs(exports) == Jobs(old(exports)) + Sent(F.Finished(old(Now()), e), visits)
      ensures if F.Completes(old(Now()), e)
        then FlushOk(bounds, acts, |old(acts)|, |acts|, F.Finished(old(Now()), e), visits)
        else visits == []
    {
      hide RegistryOk, AllLinked, Tally, P.History, Faithful, Valid, F.Finished, P.Starts, F.Completes, FlushOk;
      hide F.Sound, Jobs;
      ghost var f := Now();
      SoundOf(f, consumed, maxNodes);
      visits := [];
      var complete := FinishEvent(e);
      FinishedKeeps(f, consumed, e, maxNodes);
      P.StartsAppend(consumed, e);
      FinishedTally(f, e, |P.Starts(consumed)|, bounds.maxPending);
      Accept(e);
      if complete {
        visits := Flush();
      }
    }

    /** One event of the parser's history, in order. */
    method TakeEvent(e: Event)
      requires Ok() && P.History(consumed + [e]) && Valid(e.plan)
      modifies this`pending, this`frames, this`made, this`live, this`active, this`counts, this`consumed, this`exports,
               this`registrations, this`running, this`stopping, this`drawn, this`acts, this`run
      ensures Ok() && old(acts) <= acts && old(exports) <= exports && consumed == old(consumed) + [e]
      ensures OneTurnMore(old(run), run) && Last(run).cause.Took? && Last(run).cause.e == e
    {
      hide RegistryOk, Followed, Explains, StartOk, FlushOk, EventOk, F.Sound, F.Rooted, F.Started, F.Finished;
      hide F.Completes;
      hide F.Cleared, F.ClearedAttachment, F.Announced, Swept, Sent, Jobs;
      EventIsPhased(consumed, e);
      hide P.History;
      ghost var f, before, read, sent := Now(), acts, consumed, exports;
      ghost var announced: Option<Scope>, found: Option<Scope>, visits: seq<Visit> := None, None, [];
      SteadyForest();
      if e.kind != Gap && e.scopeToken == [] && e.sequence > 0 && e.phase == Start {
        announced, found := TakeStart(e);
        StartIsOk(Settings(), acts, |before|, |acts|, f, e, announced, found);
      } else if e.kind != Gap && e.scopeToken == [] && e.sequence > 0 && e.phase == Finish {
        visits := TakeFinish(e);
        FinishIsOk(Settings(), acts, |before|, |acts|, f, e);
      } else {
        found := TakeOther(e);
      }
      ghost var t := Turn(|before|, |acts|, Took(e, announced, found), visits);
      NothingSwept(Consumed(Settings(), f, e, announced.Some?, found.Some?));
      NothingSwept(F.Finished(f, e));
      TookTurn(Settings(), acts, f, t, Now());
      SteadyForest();
      TurnExplained(Settings(), before, acts, run, read, f, sent, t, Now(), consumed, exports);
      run := With(run, t, Now());
    }

    /** The forest is sound and rooted, and linked to what was read. */
    lemma SteadyForest()
      requires Steady()
      ensures F.Sound(Now()) && F.Rooted(Now()) && AllLinked(Now(), consumed, maxNodes)
    {
      hide RegistryOk, AllLinked, F.Sound, F.Rooted;
      SoundOf(Now(), consumed, maxNodes);
      LinkedIsRooted(Now(), consumed, maxNodes);
    }

    /** A scope was bound: what is complete may go now. */
    method Wake()
      requires Ok()
      modifies this`frames, this`live, this`exports, this`registrations, this`running, this`stopping, this`drawn,
               this`acts,
               this`run
      ensures Ok() && old(acts) <= acts && old(exports) <= exports && OneTurnMore(old(run), run)
      ensures Last(run).cause.Woken?
    {
      hide RegistryOk, Followed, Explains, FlushOk, F.Sound, F.Rooted, Swept, Sent, Jobs;
      ghost var f, before, sent := Now(), acts, exports;
      SteadyForest();
      ghost var visits := Flush();
      ghost var t := Turn(|before|, |acts|, Woken, visits);
      SteadyForest();
      TurnExplained(Settings(), before, acts, run, consumed, f, sent, t, Now(), consumed, exports);
      run := With(run, t, Now());
    }

    /** Every second: a flush, and the announcements whose scope is gone are forgotten. */
    method Tick()
      requires Ok()
      modifies this`pending, this`frames, this`live, this`exports,
               this`registrations, this`running, this`stopping, this`drawn, this`acts, this`run
      ensures Ok() && old(acts) <= acts && old(exports) <= exports && OneTurnMore(old(run), run)
      ensures Last(run).cause.Second?
    {
      hide RegistryOk, Followed, Explains, FlushOk, PendingOk, F.Sound, F.Rooted, Swept, Sent, Jobs;
      ghost var f, before, sent := Now(), acts, exports;
      SteadyForest();
      ghost var visits := Flush();
      SweptFields(f, visits);
      ghost var middle := acts;
      ghost var forgotten := ForgetPending();
      FlushLonger(bounds, middle, |before|, |middle|, f, visits, acts, |before|, |acts|);
      PendingEarlier(bounds, acts, |middle|, |before|, f.pending, forgotten);
      ghost var t := Turn(|before|, |acts|, Second(forgotten), visits);
      SteadyForest();
      TurnExplained(Settings(), before, acts, run, consumed, f, sent, t, Now(), consumed, exports);
      run := With(run, t, Now());
    }

    method ForgetPending() returns (ghost forgotten: set<nat>)
      requires Steady()
      modifies this`pending, this`registrations, this`running, this`stopping, this`drawn, this`acts
      ensures Steady() && old(acts) <= acts && pending == old(pending) - forgotten
      ensures PendingOk(bounds, acts, |old(acts)|, |acts|, old(pending), forgotten)
    {
      hide RegistryOk, Followed, Asked;
      var todo := pending.Keys;
      forgotten := {};
      while todo != {}
        invariant Steady() && old(acts) <= acts && todo <= pending.Keys && forgotten <= old(pending).Keys - todo
        invariant pending == old(pending) - forgotten
        invariant PartlyForgotten(bounds, acts, |old(acts)|, old(pending), todo, forgotten)
        decreases |todo|
      {
        var a :| a in todo;
        ghost var before := acts;
        ghost var s := AskPending(a);
        OneForgottenMore(bounds, before, acts, |old(acts)|, old(pending), todo, forgotten, a, s);
        todo := todo - {a};
        forgotten := if s.None? then forgotten + {a} else forgotten;
      }
    }

    method AskPending(a: nat) returns (ghost answer: Option<Scope>)
      requires Steady() && a in pending
      modifies this`pending, this`registrations, this`running, this`stopping, this`drawn, this`acts
      ensures Steady() && old(acts) <= acts
      ensures Asked(bounds, acts, |old(acts)|, |acts|, old(pending)[a].token, answer)
      ensures pending == if answer.None? then old(pending) - {a} else old(pending)
    {
      hide RegistryOk, AllLinked, Tally, P.History, Faithful, Valid, After, Found, Asked;
      ghost var f := Now();
      var s, at := Find(pending[a].token);
      answer := s;
      if s.None? {
        pending := pending - {a};
        OtherFieldsKeep(f, Now(), consumed, maxNodes);
        FewerPending(f, a, |P.Starts(consumed)|, bounds.maxPending);
      }
    }

    /** The stream is over: what is complete and bound is sent, the rest is given up, and no scope is taken any more. */
    method StreamEnd()
      requires Ok()
      modifies this`frames, this`live, this`exports, this`registrations, this`running, this`stopping, this`drawn,
               this`acts,
               this`run
      ensures Ok() && old(acts) < acts && acts[|acts| - 1] == End && live == {}
      ensures registrations == map[] && !running
      ensures old(exports) <= exports && OneTurnMore(old(run), run) && Last(run).cause.StreamOver?
    {
      hide RegistryOk, Followed, Explains, FlushOk, F.Sound, F.Rooted, Swept, Sent, Jobs, TreesWithdrawn;
      ghost var f, before, sent := Now(), acts, exports;
      SteadyForest();
      ghost var visits := Flush();
      ghost var middle := acts;
      SweptFields(f, visits);
      DropRest();
      ghost var late := acts;
      Close();
      FlushLonger(bounds, middle, |before|, |middle|, f, visits, acts, |before|, |acts|);
      TreesWithdrawnLonger(late, |middle|, |late|, made, Swept(f, visits).live, acts, |before|, |acts|);
      ghost var t := Turn(|before|, |acts|, StreamOver, visits);
      SteadyForest();
      TurnExplained(Settings(), before, acts, run, consumed, f, sent, t, Now(), consumed, exports);
      run := With(run, t, Now());
    }

    method DropRest()
      requires Steady()
      modifies this`frames, this`live, this`registrations, this`running, this`stopping, this`drawn, this`acts
      ensures Steady() && old(acts) <= acts && Now() == F.Without(old(Now()), old(live))
      ensures TreesWithdrawn(acts, |old(acts)|, |acts|, made, old(live))
    {
      hide RegistryOk, AllLinked, Tally, P.History, Faithful, Valid, TreesWithdrawn;
      ghost var f := Now();
      LinkedIsRooted(f, consumed, maxNodes);
      RootedIsMade(f);
      WithoutKeeps(f, consumed, live, maxNodes);
      WithoutTally(f, live, |P.Starts(consumed)|, bounds.maxPending);
      DropAll(live);
    }

    method Close()
      requires Shared()
      modifies this`registrations, this`running, this`stopping, this`drawn, this`acts
      ensures Shared() && old(acts) < acts && acts[|acts| - 1] == End && registrations == map[] && !running
    {
      hide RegistryOk;
      Clients();
      ActKeeps(bounds, random, drawn, Registered(), acts, exports, End);
      running := false;
      registrations := map[];
      acts := acts + [End];
    }
  }

  ghost predicate OneTurnMore(before: Run, after: Run) {
    |after.turns| == |before.turns| + 1 && before.turns <= after.turns && before.forests <= after.forests
  }

  ghost function Last(r: Run): Turn
    requires r.turns != []
  {
    r.turns[|r.turns| - 1]
  }

  // ---- a flush, tree by tree

  ghost predicate PartlyFlushed(b: Bounds, acts: seq<Act>, since: nat, f: Forest, visits: seq<Visit>, todo: set<nat>) {
    && OncePerTree(visits) && (forall id :: id in f.live <==> Visited(visits, id) || id in todo)
    && (forall id :: id in todo ==> !Visited(visits, id))
    && (forall i :: 0 <= i < |visits| ==> VisitOk(b, acts, since, |acts|, f, visits[i]))
  }

  lemma OneVisitMore(
      b: Bounds, before: seq<Act>, acts: seq<Act>, since: nat, f: Forest, visits: seq<Visit>, todo: set<nat>, id: nat,
      answer: Option<Scope>)
    requires PartlyFlushed(b, before, since, f, visits, todo) && id in todo && before <= acts && since <= |before|
    requires VisitOk(b, acts, |before|, |acts|, Swept(f, visits), Visit(id, answer)) && Swept(f, visits).made == f.made
    ensures PartlyFlushed(b, acts, since, f, visits + [Visit(id, answer)], todo - {id})
  {
    var v := Visit(id, answer);
    assert VisitOk(b, acts, |before|, |acts|, f, v);
    hide VisitOk, Swept;
    VisitLonger(b, acts, |before|, |acts|, f, v, acts, since, |acts|);
    forall i | 0 <= i < |visits| ensures VisitOk(b, acts, since, |acts|, f, visits[i]) {
      VisitLonger(b, before, since, |before|, f, visits[i], acts, since, |acts|);
    }
    forall x ensures Visited(visits + [v], x) <==> Visited(visits, x) || x == id {
      VisitedAppend(visits, v, x);
    }
    forall i | 0 <= i < |visits| ensures visits[i].id != id {
      assert Visited(visits, visits[i].id);
    }
  }

  lemma VisitedAppend(visits: seq<Visit>, v: Visit, id: nat)
    ensures Visited(visits + [v], id) <==> Visited(visits, id) || v.id == id
  {
    var more := visits + [v];
    if Visited(visits, id) {
      var i :| 0 <= i < |visits| && visits[i].id == id;
      assert more[i].id == id;
    }
    assert more[|visits|] == v;
  }

  lemma FlushedLive(f: Forest, id: nat, answer: Option<Scope>)
    requires id < |f.made|
    ensures f.live - {id} <= F.Flushed(f, id, answer).live
  {
  }

  lemma NothingSwept(f: Forest)
    ensures Swept(f, []) == f && Sent(f, []) == []
  {
  }

  // ---- forgetting announcements

  ghost predicate PartlyForgotten(
      b: Bounds, acts: seq<Act>, since: nat, pending: map<nat, F.Pending>, todo: set<nat>, forgotten: set<nat>) {
    forall a :: a in pending && a !in todo ==> exists s ::
      Asked(b, acts, since, |acts|, pending[a].token, s) && (s.None? <==> a in forgotten)
  }

  lemma OneForgottenMore(
      b: Bounds, before: seq<Act>, acts: seq<Act>, since: nat, pending: map<nat, F.Pending>, todo: set<nat>,
      forgotten: set<nat>, a: nat, s: Option<Scope>)
    requires PartlyForgotten(b, before, since, pending, todo, forgotten) && before <= acts && since <= |before|
    requires a in pending && a !in forgotten && Asked(b, acts, |before|, |acts|, pending[a].token, s)
    ensures PartlyForgotten(b, acts, since, pending, todo - {a}, if s.None? then forgotten + {a} else forgotten)
  {
    hide Asked;
    var now := if s.None? then forgotten + {a} else forgotten;
    forall x | x in pending && x !in todo - {a}
      ensures exists u :: Asked(b, acts, since, |acts|, pending[x].token, u) && (u.None? <==> x in now)
    {
      if x == a {
        AskedLonger(b, acts, |before|, |acts|, pending[a].token, s, acts, since, |acts|);
      } else {
        var u :| Asked(b, before, since, |before|, pending[x].token, u) && (u.None? <==> x in forgotten);
        AskedLonger(b, before, since, |before|, pending[x].token, u, acts, since, |acts|);
      }
    }
  }

  lemma PendingEarlier(
      b: Bounds, acts: seq<Act>, since: nat, first: nat, pending: map<nat, F.Pending>, forgotten: set<nat>)
    requires PendingOk(b, acts, since, |acts|, pending, forgotten) && first <= since
    ensures PendingOk(b, acts, first, |acts|, pending, forgotten)
  {
    hide Asked;
    forall a | a in pending ensures exists s ::
      Asked(b, acts, first, |acts|, pending[a].token, s) && (s.None? <==> a in forgotten)
    {
      var s :| Asked(b, acts, since, |acts|, pending[a].token, s) && (s.None? <==> a in forgotten);
      AskedLonger(b, acts, since, |acts|, pending[a].token, s, acts, first, |acts|);
    }
  }

  // ---- events

  lemma OpenedFrames(f: Forest, e: Event, announced: bool)
    ensures F.Opened(f, e, announced).0.frames == f.frames
  {
  }

  lemma ActivatedTrees(f: Forest, e: Event)
    ensures F.Activated(f, e).made == f.made && F.Activated(f, e).frames == f.frames
  {
  }

  lemma JoinLonger(b: Bounds, acts: seq<Act>, since: nat, token: Token, found: Option<Scope>, first: nat)
    requires Asked(b, acts, since, |acts|, token, found) && first <= since
    ensures Asked(b, acts, first, |acts|, token, found)
    ensures Withdrawn(acts, since, |acts|, token) ==> Withdrawn(acts, first, |acts|, token)
  {
    hide Asked, Withdrawn;
    AskedLonger(b, acts, since, |acts|, token, found, acts, first, |acts|);
    if Withdrawn(acts, since, |acts|, token) {
      WithdrawnLonger(acts, since, |acts|, token, acts, first, |acts|);
    }
  }

  lemma StartIsOk(
      c: Config, acts: seq<Act>, since: nat, until: nat, f: Forest, e: Event, announced: Option<Scope>,
      found: Option<Scope>)
    requires F.Sound(f) && F.Rooted(f) && e.kind != Gap && e.scopeToken == [] && e.sequence > 0
    requires StartOk(c, acts, since, until, f, e, announced, found)
    ensures EventOk(c, acts, since, until, f, e, announced, found)
  {
    hide F.Sound, F.Rooted, StartOk;
  }

  lemma FinishIsOk(c: Config, acts: seq<Act>, since: nat, until: nat, f: Forest, e: Event)
    requires F.Sound(f) && F.Rooted(f) && e.kind != Gap && e.scopeToken == [] && e.sequence > 0 && e.phase == Finish
    ensures EventOk(c, acts, since, until, f, e, None, None)
  {
    hide F.Sound, F.Rooted;
  }

  /** A turn that took one event. */
  lemma TookTurn(c: Config, acts: seq<Act>, f: Forest, t: Turn, g: Forest)
    requires F.Sound(f) && F.Rooted(f) && t.since <= t.until <= |acts| && t.cause.Took?
    requires g == Swept(Consumed(c, f, t.cause.e, t.cause.announced.Some?, t.cause.found.Some?), t.visits)
    requires EventOk(c, acts, t.since, t.until, f, t.cause.e, t.cause.announced, t.cause.found)
    requires if Flushes(f, t.cause)
             then FlushOk(c.bounds, acts, t.since, t.until, Read(c, f, t.cause), t.visits) else t.visits == []
    ensures TurnOk(c, acts, f, t, g)
  {
    hide F.Sound, F.Rooted, EventOk, FlushOk, Flushes, Swept, Consumed;
  }

  lemma AnnouncedPending(f: Forest, e: Event, found: bool, anchor: Option<int>, maxPending: nat)
    ensures var left := f.pending - {e.attachment};
      F.Announced(f, e, found, anchor, maxPending) == f.(
        pending := if found && anchor.Some? && e.attachment > 0 && |left| < maxPending
                   then left[e.attachment := F.Pending(e.scopeToken, anchor.value)] else left)
  {
  }

  lemma EventIsPhased(h: seq<Event>, e: Event)
    requires P.History(h + [e])
    ensures P.PhaseOk(e)
  {
    hide P.Numbered, P.FinishesMatch, P.FinishesOnce, P.AlwaysNested, P.ParentsOpen;
    assert (h + [e])[|h|] == e;
  }

  /** Reading an event that concerns no tree keeps what holds. */
  lemma ReadNeutral(f: Forest, h: seq<Event>, e: Event, maxNodes: nat, maxPending: nat)
    requires AllLinked(f, h, maxNodes) && Tally(f, |P.Starts(h)|, maxPending) && !Collects(e) && !Ends(e)
    ensures AllLinked(f, h + [e], maxNodes) && Tally(f, |P.Starts(h + [e])|, maxPending)
  {
    hide AllLinked, CountsOk, P.Starts;
    NeutralKeeps(f, h, e, maxNodes);
    P.StartsAppend(h, e);
  }

  lemma FewerPending(f: Forest, a: nat, started: nat, maxPending: nat)
    requires Tally(f, started, maxPending)
    ensures Tally(f.(pending := f.pending - {a}), started, maxPending)
  {
  }

  lemma TreeIsLinked(f: Forest, h: seq<Event>, id: nat, maxNodes: nat)
    requires AllLinked(f, h, maxNodes) && id in f.live
    ensures id < |f.made| && TreeOk(f.made[id], h, maxNodes)
  {
  }

  lemma ExportsOf(b: Bounds, random: nat -> Token, drawn: nat, r: Registry, acts: seq<Act>, exports: seq<Export>)
    requires RegistryOk(b, random, drawn, r, acts, exports)
    ensures ExportsOk(b, acts, exports)
  {
  }

  lemma JobIsOk(j: S.Job, clock: G.Clock, collapse: bool)
    requires j.clock == clock && j.collapsed == G.SequencesOf(j.groups)
    requires if !collapse || j.tree.omitted || |j.tree.nodes| < G.MIN_NODES then j.groups == []
             else G.Selection(clock, j.tree.nodes, j.groups)
    ensures JobOk(j, clock, collapse)
  {
  }

  lemma MakeFaithful(h: seq<Event>, x: Export, maxNodes: nat, clock: G.Clock, collapse: bool)
    requires x.read == |h| && x.job.tree.complete && Whole(x.job.tree, h, maxNodes)
    requires JobOk(x.job, clock, collapse) && x.spans == S.SentSpans(x.job)
    ensures Faithful(h, x, maxNodes, clock, collapse)
  {
    hide Whole, JobOk, S.SentSpans;
    assert h[..|h|] == h;
  }

  lemma MakeAuthorised(b: Bounds, looked: seq<Act>, acts: seq<Act>, x: Export)
    requires looked < acts && x.at == |looked| - 1 && x.gone == |acts| - 1
    requires acts[x.gone] == Act.Discard(x.job.tree.token)
    requires looked[x.at].Lookup? && looked[x.at].token == x.job.tree.token && x.job.scope.parent.valid
    requires Found(b, After(b, looked[..x.at]), x.job.tree.token, looked[x.at].now) == Some(x.job.scope)
    ensures Authorised(b, acts, x)
  {
    hide After, Found;
    assert acts[..x.at] == looked[..x.at];
  }

  lemma TreeIsNotEmpty(t: Tree, h: seq<Event>, maxNodes: nat)
    requires TreeOk(t, h, maxNodes)
    ensures t.nodes != []
  {
  }

  lemma RecordExport(
      b: Bounds, random: nat -> Token, drawn: nat, r: Registry, before: seq<Act>, acts: seq<Act>, exports: seq<Export>,
      x: Export)
    requires RegistryOk(b, random, drawn, r, acts, exports) && before <= acts && ExportsOk(b, before, exports)
    requires Authorised(b, acts, x) && |before| <= x.at
    ensures RegistryOk(b, random, drawn, r, acts, exports + [x])
  {
    hide ExportsOk, Authorised, FreshTokens, DrawnFrom, NeverRepeats, After;
    AddExport(b, before, acts, exports, x);
  }

  lemma {:induction false} MembersWereRead(h: seq<Event>, root: nat, i: nat)
    requires i < |Family(h, root)|
    ensures Family(h, root)[i] in h
  {
    var g := h[..|h| - 1];
    if i < |Family(g, root)| {
      MembersWereRead(g, root, i);
    }
  }

  /** The plans of a tree are plans the parser emitted. */
  lemma PlansAreValid(t: Tree, h: seq<Event>, maxNodes: nat)
    requires TreeOk(t, h, maxNodes) && forall i :: 0 <= i < |h| ==> Valid(h[i].plan)
    ensures S.PlansOk(t)
  {
    hide Family, Valid;
    NothingIsValid();
    forall i | 0 <= i < |t.nodes| ensures Valid(S.PlanOf(t.nodes[i])) {
      MembersWereRead(h, t.nodes[0].start.sequence, i);
      assert NodeOk(h, t.nodes[i]);
    }
  }

  lemma NothingIsValid()
    ensures Valid([])
  {
  }

  lemma RootedIsMade(f: Forest)
    requires F.Rooted(f)
    ensures forall id :: id in f.live ==> id < |f.made|
  {
  }

  lemma WithoutNothing(f: Forest)
    ensures F.Without(f, {}) == f
  {
  }

  lemma WithoutMore(f: Forest, gone: set<nat>, id: nat)
    ensures F.Without(F.Without(f, gone), {id}) == F.Without(f, gone + {id})
  {
  }

  lemma WithoutFields(f: Forest, gone: set<nat>)
    ensures var g := F.Without(f, gone);
      g.pending == f.pending && g.active == f.active && g.counts == f.counts && g.made == f.made
  {
  }

  lemma LookupIsFound(
      b: Bounds, random: nat -> Token, drawn: nat, r: Registry, acts: seq<Act>, exports: seq<Export>, a: Act)
    requires RegistryOk(b, random, drawn, r, acts, exports)
    ensures (acts + [a])[..|acts|] == acts && After(b, acts) == r
  {
  }
}
