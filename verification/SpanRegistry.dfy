/** Scopes registered by clients and taken up by the span consumer (trace/spans.go, the methods under the mutex). */
module SpanRegistry {
  import opened Options
  import opened Utf8

  type Token = Bytes

  datatype SpanContext = SpanContext(id: nat, valid: bool, sampled: bool)
  const NO_CONTEXT := SpanContext(0, false, false)

  datatype Scope = Scope(parent: SpanContext, registered: int, markerCompleted: Option<int>)
  datatype Bounds = Bounds(maxPending: nat, retention: int)
  datatype Registry = Registry(started: bool, stopping: bool, running: bool, scopes: map<Token, Scope>)

  const IDLE := Registry(false, false, false, map[])

  predicate Exportable(c: SpanContext) {
    c.valid && c.sampled
  }

  /** One critical section. The first five belong to clients and the owner, Lookup and End to the consumer. */
  datatype Act =
    | Begin
    | Register(parent: SpanContext, token: Token, now: int)
    | MarkerComplete(token: Token, now: int)
    | Bind(token: Token, parent: SpanContext)
    | Stop
    | Discard(token: Token)
    | Lookup(token: Token, now: int)
    | End

  predicate Expired(b: Bounds, s: Scope, now: int) {
    now - s.registered > b.retention
  }

  function Unexpired(b: Bounds, scopes: map<Token, Scope>, now: int): map<Token, Scope> {
    map t | t in scopes && !Expired(b, scopes[t], now) :: scopes[t]
  }

  /** Register gives its token out; otherwise it returns the empty string. */
  predicate Issues(b: Bounds, r: Registry, parent: SpanContext, now: int) {
    !(parent.valid && !parent.sampled) && r.running && |Unexpired(b, r.scopes, now)| < b.maxPending
  }

  function Found(b: Bounds, r: Registry, token: Token, now: int): Option<Scope> {
    if token in r.scopes && !Expired(b, r.scopes[token], now) then Some(r.scopes[token]) else None
  }

  function Step(b: Bounds, r: Registry, a: Act): Registry {
    match a
    case Begin => if r.started then r else r.(started := true, running := !r.stopping)
    case Register(parent, token, now) =>
      if (parent.valid && !parent.sampled) || !r.running then r else
      var left := Unexpired(b, r.scopes, now);
      r.(scopes := if |left| < b.maxPending then left[token := Scope(NO_CONTEXT, now, None)] else left)
    case MarkerComplete(token, now) =>
      if token in r.scopes then r.(scopes := r.scopes[token := r.scopes[token].(markerCompleted := Some(now))]) else r
    case Bind(token, parent) =>
      if token !in r.scopes then r
      else if Exportable(parent) then r.(scopes := r.scopes[token := r.scopes[token].(parent := parent)])
      else r.(scopes := r.scopes - {token})
    case Stop => r.(running := false, stopping := true)
    case Discard(token) => r.(scopes := r.scopes - {token})
    case Lookup(token, now) =>
      if token in r.scopes && Expired(b, r.scopes[token], now) then r.(scopes := r.scopes - {token}) else r
    case End => r.(running := false, scopes := map[])
  }

  /** The registry after the critical sections of `acts`, in the order in which the mutex let them in. */
  function After(b: Bounds, acts: seq<Act>): Registry {
    if acts == [] then IDLE else Step(b, After(b, acts[..|acts| - 1]), acts[|acts| - 1])
  }

  /** Random tokens never repeat. */
  ghost predicate FreshTokens(acts: seq<Act>) {
    forall i, j :: 0 <= i < j < |acts| && acts[i].Register? && acts[j].Register? ==> acts[i].token != acts[j].token
  }

  lemma AfterNext(b: Bounds, acts: seq<Act>, i: nat)
    requires i < |acts|
    ensures After(b, acts[..i + 1]) == Step(b, After(b, acts[..i]), acts[i])
  {
    assert acts[..i + 1][..i] == acts[..i];
  }

  // ---- bounds

  lemma MapSize<V>(m: map<Token, V>, n: map<Token, V>)
    requires m.Keys <= n.Keys
    ensures |m| <= |n|
  {
    KeysSize(m.Keys, n.Keys);
    assert |m| == |m.Keys| && |n| == |n.Keys|;
  }

  lemma KeysSize(a: set<Token>, b: set<Token>)
    requires a <= b
    ensures |a| <= |b|
  {
    assert b == a + (b - a);
  }

  lemma AddSize<V>(m: map<Token, V>, t: Token, v: V)
    ensures |m[t := v]| <= |m| + 1 && (t in m ==> |m[t := v]| == |m|)
  {
  }

  lemma RegisterIsBounded(b: Bounds, r: Registry, parent: SpanContext, token: Token, now: int)
    requires |r.scopes| <= b.maxPending
    ensures |Step(b, r, Register(parent, token, now)).scopes| <= b.maxPending
  {
    var left := Unexpired(b, r.scopes, now);
    assert left.Keys <= r.scopes.Keys;
    hide Unexpired;
    MapSize(left, r.scopes);
    AddSize(left, token, Scope(NO_CONTEXT, now, None));
  }

  lemma StepIsBounded(b: Bounds, r: Registry, a: Act)
    requires |r.scopes| <= b.maxPending
    ensures |Step(b, r, a).scopes| <= b.maxPending
  {
    match a {
      case Register(parent, token, now) => RegisterIsBounded(b, r, parent, token, now);
      case MarkerComplete(token, now) =>
        if token in r.scopes {
          AddSize(r.scopes, token, r.scopes[token].(markerCompleted := Some(now)));
        }
      case Bind(token, parent) =>
        MapSize(r.scopes - {token}, r.scopes);
        if token in r.scopes {
          AddSize(r.scopes, token, r.scopes[token].(parent := parent));
        }
      case Discard(token) => MapSize(r.scopes - {token}, r.scopes);
      case Lookup(token, now) => MapSize(r.scopes - {token}, r.scopes);
      case _ =>
    }
  }

  /** No more scopes than the configured bound are ever registered at once. */
  lemma {:induction false} RegistrationsAreBounded(b: Bounds, acts: seq<Act>)
    ensures |After(b, acts).scopes| <= b.maxPending
  {
    if acts != [] {
      RegistrationsAreBounded(b, acts[..|acts| - 1]);
      StepIsBounded(b, After(b, acts[..|acts| - 1]), acts[|acts| - 1]);
    }
  }

  // ---- what a registered scope stands for

  predicate Removes(a: Act, token: Token) {
    a == Discard(token) || a == End || (a.Bind? && a.token == token && !Exportable(a.parent))
  }

  predicate Rebinds(a: Act, token: Token) {
    a.Bind? && a.token == token && Exportable(a.parent)
  }

  /** The scope was registered at `from` and nothing has withdrawn it before `i`. */
  ghost predicate Lives(acts: seq<Act>, i: nat, token: Token, s: Scope, from: nat) {
    && from < i <= |acts| && acts[from].Register? && acts[from].token == token && acts[from].now == s.registered
    && forall j :: from < j < i ==> !Removes(acts[j], token)
  }

  /** The parent of the scope is the last one that was bound to it, if any was. */
  ghost predicate BoundTo(acts: seq<Act>, i: nat, token: Token, s: Scope, from: nat)
    requires from < i <= |acts|
  {
    if s.parent == NO_CONTEXT then forall j :: from < j < i ==> !Rebinds(acts[j], token)
    else exists k: nat :: from < k && BoundLast(acts, i, token, s.parent, k)
  }

  ghost predicate BoundLast(acts: seq<Act>, i: nat, token: Token, parent: SpanContext, k: nat) {
    && k < i <= |acts| && acts[k] == Bind(token, parent) && Exportable(parent)
    && forall j :: k < j < i ==> !Rebinds(acts[j], token)
  }

  ghost predicate Justified(acts: seq<Act>, i: nat, token: Token, s: Scope) {
    exists from: nat :: Lives(acts, i, token, s, from) && BoundTo(acts, i, token, s, from)
  }

  lemma StillJustified(acts: seq<Act>, i: nat, token: Token, s: Scope, t: Scope)
    requires i < |acts| && Justified(acts, i, token, s) && !Removes(acts[i], token)
    requires t.registered == s.registered
    requires t.parent == if Rebinds(acts[i], token) then acts[i].parent else s.parent
    ensures Justified(acts, i + 1, token, t)
  {
    var from: nat :| Lives(acts, i, token, s, from) && BoundTo(acts, i, token, s, from);
    assert Lives(acts, i + 1, token, t, from);
    if Rebinds(acts[i], token) {
      assert BoundLast(acts, i + 1, token, t.parent, i);
    } else if s.parent != NO_CONTEXT {
      var k: nat :| from < k && BoundLast(acts, i, token, s.parent, k);
      assert BoundLast(acts, i + 1, token, t.parent, k);
    }
    assert BoundTo(acts, i + 1, token, t, from);
  }

  /** Where a scope that is registered after a critical section comes from. */
  lemma StepOrigin(b: Bounds, r: Registry, a: Act, token: Token)
    requires token in Step(b, r, a).scopes
    ensures var s := Step(b, r, a).scopes[token];
      || (a.Register? && a.token == token && s == Scope(NO_CONTEXT, a.now, None))
      || (token in r.scopes && !Removes(a, token) && s.registered == r.scopes[token].registered
          && s.parent == if Rebinds(a, token) then a.parent else r.scopes[token].parent)
  {
  }

  /** Every scope in the registry is one a client registered and nobody withdrew, with the parent bound last. */
  lemma {:induction false} ScopesAreJustified(b: Bounds, acts: seq<Act>, i: nat, token: Token)
    requires i <= |acts| && token in After(b, acts[..i]).scopes
    ensures Justified(acts, i, token, After(b, acts[..i]).scopes[token])
  {
    if i > 0 {
      hide *;
      AfterNext(b, acts, i - 1);
      var r, a := After(b, acts[..i - 1]), acts[i - 1];
      var s := After(b, acts[..i]).scopes[token];
      StepOrigin(b, r, a, token);
      if a.Register? && a.token == token && s == Scope(NO_CONTEXT, a.now, None) {
        NewIsJustified(acts, i, token);
      } else {
        ScopesAreJustified(b, acts, i - 1, token);
        StillJustified(acts, i - 1, token, r.scopes[token], s);
      }
    }
  }

  lemma NewIsJustified(acts: seq<Act>, i: nat, token: Token)
    requires 0 < i <= |acts| && acts[i - 1].Register? && acts[i - 1].token == token
    ensures Justified(acts, i, token, Scope(NO_CONTEXT, acts[i - 1].now, None))
  {
    var s := Scope(NO_CONTEXT, acts[i - 1].now, None);
    assert Lives(acts, i, token, s, i - 1) && BoundTo(acts, i, token, s, i - 1);
  }

  // ---- withdrawn for good

  /** A client was given this token, or at least drew it, before `i`. */
  ghost predicate Drawn(acts: seq<Act>, i: nat, token: Token) {
    i <= |acts| && exists from :: 0 <= from < i && acts[from].Register? && acts[from].token == token
  }

  lemma StepAddsOwn(b: Bounds, r: Registry, a: Act, token: Token)
    requires token !in r.scopes && !(a.Register? && a.token == token)
    ensures token !in Step(b, r, a).scopes
  {
  }

  lemma NotRedrawn(acts: seq<Act>, i: nat, j: nat, token: Token)
    requires FreshTokens(acts) && i <= j < |acts|
    requires Drawn(acts, i, token)
    ensures !(acts[j].Register? && acts[j].token == token)
  {
  }

  /** A token that was drawn before and is not registered now never will be. */
  lemma {:induction false} GoneForGood(b: Bounds, acts: seq<Act>, i: nat, j: nat, token: Token)
    requires FreshTokens(acts) && i <= j <= |acts| && token !in After(b, acts[..i]).scopes
    requires Drawn(acts, i, token)
    ensures token !in After(b, acts[..j]).scopes
    decreases j
  {
    if i < j {
      hide *;
      GoneForGood(b, acts, i, j - 1, token);
      AfterNext(b, acts, j - 1);
      NotRedrawn(acts, i, j - 1, token);
      StepAddsOwn(b, After(b, acts[..j - 1]), acts[j - 1], token);
    }
  }

  /** After a withdrawal the token is never found again. */
  lemma DiscardIsFinal(b: Bounds, acts: seq<Act>, d: nat, j: nat, token: Token, now: int)
    requires FreshTokens(acts) && d < j <= |acts| && acts[d] == Discard(token)
    requires Drawn(acts, d, token)
    ensures Found(b, After(b, acts[..j]), token, now) == None
  {
    AfterNext(b, acts, d);
    assert Drawn(acts, d + 1, token);
    GoneForGood(b, acts, d + 1, j, token);
  }

  // ---- the end

  lemma StepStaysEnded(b: Bounds, r: Registry, a: Act)
    requires r.started && !r.running && r.scopes == map[]
    ensures var q := Step(b, r, a); q.started && !q.running && q.scopes == map[]
  {
  }

  lemma {:induction false} StartedOnce(b: Bounds, acts: seq<Act>, i: nat, j: nat)
    requires i <= j <= |acts|
    requires var r := After(b, acts[..i]); r.started && !r.running && r.scopes == map[]
    ensures var r := After(b, acts[..j]); r.started && !r.running && r.scopes == map[]
    decreases j
  {
    if i < j {
      hide *;
      StartedOnce(b, acts, i, j - 1);
      AfterNext(b, acts, j - 1);
      StepStaysEnded(b, After(b, acts[..j - 1]), acts[j - 1]);
    }
  }

  /** Once the consumer has ended, no scope is ever registered again. */
  lemma EndIsFinal(b: Bounds, acts: seq<Act>, e: nat, j: nat)
    requires e < j <= |acts| && acts[e] == End && After(b, acts[..e]).started
    ensures After(b, acts[..j]).scopes == map[] && !After(b, acts[..j]).running
    ensures forall parent, now :: !Issues(b, After(b, acts[..j]), parent, now)
  {
    AfterNext(b, acts, e);
    StartedOnce(b, acts, e + 1, j);
  }
}
