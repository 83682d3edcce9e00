/**
 * Marker tokens, cursors and statements of an instrumented connection (server_scope.go, client.go, rows.go,
 * telemetry.go).
 */
module ClientTokens {
  import opened Options
  import opened ClientLedger

  /** How the wrapped driver answers a call; `Skipped` is driver.ErrSkip. */
  datatype Outcome = Succeeded | Skipped | Failed

  datatype Read = Row | EndOfRows | ReadError
  datatype Answer = QueryFailed | NoRows | Rows(first: Read, second: Read, closes: bool)

  /** How the driver and the span runtime answer a marker query; `token` is what Register returns. */
  datatype Marker = Marker(
    canPrepare: bool, token: Option<Token>, prepared: bool, canQuery: bool, answer: Answer, stmtCloses: bool)
  {
    /** The marker reached the server and came back whole. */
    predicate Confirmed() {
      && canPrepare && token.Some? && prepared && canQuery
      && answer.Rows? && answer.first == Row && answer.second != ReadError && answer.closes && stmtCloses
    }

    predicate Registers() {
      canPrepare && token.Some?
    }
  }

  /** A profiling session that was started for an operation. */
  type Handle = nat

  class Operation {
    const query: string
    const enabled: bool
    const fallback: bool
    var serverToken: Option<Token>
    var profile: Option<Handle>

    constructor (query: string, enabled: bool, fallback: bool)
      ensures this.query == query && this.enabled == enabled && this.fallback == fallback
      ensures serverToken == None && profile == None
    {
      this.query, this.enabled, this.fallback := query, enabled, fallback;
      serverToken, profile := None, None;
    }
  }

  class Statement {
    const query: string
    const conn: Connection
    var serverToken: Option<Token>

    constructor (query: string, conn: Connection, token: Option<Token>)
      ensures this.query == query && this.conn == conn && serverToken == token
    {
      this.query, this.conn := query, conn;
      serverToken := token;
    }

    /** The token that waited for this statement, or a new scope. */
    method ServerScope(op: Operation, m: Marker)
      requires conn.Valid() && this in conn.statements && op.serverToken == None && op.query == query
      requires m.token.Some? ==> m.token.value !in conn.issued
      modifies this`serverToken, conn`serverToken, conn`fallbackToken, conn`issued, conn`discarded, op`serverToken
      ensures conn.During(op.serverToken) && serverToken == None && (!op.enabled ==> op.serverToken == None)
      ensures old(serverToken).Some? && op.enabled ==> op.serverToken == old(serverToken)
      ensures conn.fallbackToken == old(conn.fallbackToken) || (conn.server && conn.fallbackToken == None)
    {
      hide Linear;
      ghost var l := conn.Tokens(None);
      ghost var before := conn.Held();
      var token := serverToken;
      serverToken := None;
      assert conn.Held() == before - {this};
      if token.Some? {
        StatementToOp(l, this);
        DiscardHeld(l, this);
        if op.enabled {
          op.serverToken := token;
          assert conn.Tokens(token) == l.(op := token, held := l.held - {this});
        } else {
          conn.Discard(token.value);
          assert conn.Tokens(None) == l.(discarded := l.discarded + {token.value}, held := l.held - {this});
        }
        return;
      }
      assert before - {this} == before;
      assert conn.Tokens(None) == l;
      conn.ServerScope(op, m);
    }

    method Exec(enabled: bool, profile: Option<Handle>, m: Marker, outcome: Outcome, recording: bool)
      requires conn.Ok() && this in conn.statements && conn.Fresh(m, profile)
      modifies this`serverToken, conn`serverToken, conn`fallbackToken, conn`issued, conn`bound, conn`discarded,
               conn`started, conn`ended
      ensures conn.Ok() && serverToken == None
      ensures conn.fallbackToken == old(conn.fallbackToken) || (conn.server && conn.fallbackToken == None)
    {
      hide Linear, Connection.During, Connection.Profiled;
      var op := new Operation(query, enabled, false);
      conn.ProfileStart(op, profile);
      ServerScope(op, m);
      conn.Finish(op, outcome, recording);
      conn.ProfileFinish(op);
    }

    method Query(enabled: bool, profile: Option<Handle>, m: Marker, outcome: Outcome, hasRows: bool, recording: bool)
      returns (cursor: Option<Cursor>)
      requires conn.Ok() && this in conn.statements && conn.Fresh(m, profile)
      modifies this`serverToken, conn`serverToken, conn`fallbackToken, conn`issued, conn`bound, conn`discarded,
               conn`serverRows, conn`cursors, conn`counted, conn`started, conn`ended
      ensures conn.Ok() && serverToken == None
      ensures conn.fallbackToken == old(conn.fallbackToken) || (conn.server && conn.fallbackToken == None)
      ensures cursor.Some? <==> outcome == Succeeded && hasRows && (conn.server || (enabled && profile.Some?))
    {
      hide Linear, Connection.During, Connection.Profiled;
      var op := new Operation(query, enabled, false);
      conn.ProfileStart(op, profile);
      ServerScope(op, m);
      cursor := conn.QueryResult(op, outcome, hasRows, recording);
    }

    method Close()
      requires conn.Ok() && this in conn.statements
      modifies this`serverToken, conn`discarded
      ensures conn.Ok() && serverToken == None
    {
      hide Linear;
      ghost var l := conn.Tokens(None);
      ghost var before := conn.Held();
      var token := serverToken;
      serverToken := None;
      assert conn.Held() == before - {this};
      if token.Some? {
        DiscardHeld(l, this);
        conn.Discard(token.value);
        assert conn.Tokens(None) == l.(discarded := l.discarded + {token.value}, held := l.held - {this});
      } else {
        assert before - {this} == before;
        assert conn.Tokens(None) == l;
      }
    }
  }

  /** A result set with a release: of the count, of a profiling session, or of both. `released` counts its runs. */
  class Cursor {
    const conn: Connection
    const counts: bool
    const profile: Option<Handle>
    var closed: bool
    ghost var released: nat

    constructor (conn: Connection, counts: bool, profile: Option<Handle>)
      ensures this.conn == conn && this.counts == counts && this.profile == profile && !closed && released == 0
    {
      this.conn, this.counts, this.profile := conn, counts, profile;
      closed, released := false, 0;
    }

    /** Releases the count and ends the profiling session once, however often database/sql closes the result set. */
    method Close()
      requires conn.Ok() && (closed || this in conn.cursors) && (closed ==> this !in conn.cursors && released == 1)
      modifies this, conn`serverRows, conn`cursors, conn`counted, conn`ended
      ensures conn.Ok() && closed && released == 1
      ensures conn.cursors == old(conn.cursors) - {this}
      ensures conn.serverRows == old(conn.serverRows) - (if counts && !old(closed) then 1 else 0)
      ensures conn.serverRows >= 0
    {
      hide Linear, Connection.SameSql, Connection.Held, Connection.Tokens, Connection.Profiled;
      if !closed {
        conn.Release(this);
        closed := true;
        released := released + 1;
      }
    }
  }

  class Connection {
    /** Whether a span runtime is configured. */
    const server: bool
    const digest: string -> nat
    var serverRows: int
    var serverToken: Option<Token>
    var fallbackToken: Option<Token>
    var fallbackQuery: nat

    /**
     * The calls made to the span runtime: which tokens were issued, for which SQL, which were bound, which discarded.
     */
    ghost var issued: map<Token, string>
    ghost var bound: multiset<Token>
    ghost var discarded: set<Token>
    ghost var statements: set<Statement>
    ghost var cursors: set<Cursor>
    ghost var counted: set<Cursor>
    /** The profiling sessions that were started, and how often each was finished or cancelled. */
    ghost var started: map<Handle, string>
    ghost var ended: multiset<Handle>

    ghost function Held(): map<Statement, Token>
      reads this`statements, statements`serverToken
    {
      map s | s in statements && s.serverToken.Some? :: s.serverToken.value
    }

    ghost function Tokens(op: Option<Token>): Ledger<Statement>
      reads this`issued, this`bound, this`discarded, this`fallbackToken, this`statements, statements`serverToken
    {
      Ledger(issued, bound, discarded, op, fallbackToken, Held())
    }

    /** A token that waits, or that a statement holds, was issued for SQL with the same digest. */
    ghost predicate SameSql()
      reads this`fallbackToken, this`fallbackQuery, this`issued, this`statements, statements`serverToken
    {
      && (fallbackToken.Some? && fallbackToken.value in issued ==> fallbackQuery == digest(issued[fallbackToken.value]))
      && forall s :: s in statements && s.serverToken.Some? && s.serverToken.value in issued ==>
           digest(s.query) == digest(issued[s.serverToken.value])
    }

    /** The count is the number of result sets that were returned and not yet closed; none of those was released. */
    ghost predicate CursorsOk()
      reads this`serverRows, this`cursors, this`counted, cursors
    {
      && serverRows == |counted| && counted <= cursors
      && forall c :: c in cursors ==> c.conn == this && !c.closed && c.released == 0 && (c.counts <==> c in counted)
    }

    ghost function Profiles(): map<Cursor, Handle>
      reads this`cursors
    {
      map c | c in cursors && c.profile.Some? :: c.profile.value
    }

    /** Who has to end a profiling session: the operation under way or an open result set. */
    ghost function Handles(op: Option<Handle>): Ledger<Cursor>
      reads this`started, this`ended, this`cursors
    {
      Ledger(started, ended, {}, op, None, Profiles())
    }

    ghost predicate Profiled(op: Option<Handle>)
      reads this`started, this`ended, this`cursors
    {
      Linear(Handles(op))
    }

    /** The answers of the span runtime and the profiler are new. */
    ghost predicate Fresh(m: Marker, profile: Option<Handle>)
      reads this`issued, this`started
    {
      (m.token.Some? ==> m.token.value !in issued) && (profile.Some? ==> profile.value !in started)
    }

    /** What holds while an operation with the token `op` is under way; without a runtime there are no tokens. */
    ghost predicate During(op: Option<Token>)
      reads this`serverToken, this`fallbackToken, this`fallbackQuery, this`issued, this`bound, this`discarded,
            this`statements,
            this`serverRows, this`cursors, this`counted, statements`serverToken, cursors
    {
      && Linear(Tokens(op)) && SameSql() && CursorsOk()
      && (forall s :: s in statements ==> s.conn == this)
      && (serverToken.Some? ==> serverToken.value in issued)
      && (!server ==> issued == map[])
    }

    ghost predicate Valid()
      reads this`serverToken, this`fallbackToken, this`fallbackQuery, this`issued, this`bound, this`discarded,
            this`statements,
            this`serverRows, this`cursors, this`counted, statements`serverToken, cursors
    {
      During(None)
    }

    /** What holds between two calls. */
    ghost predicate Ok()
      reads this, statements, cursors
    {
      Valid() && Profiled(None)
    }

    constructor (server: bool, digest: string -> nat)
      ensures this.server == server && this.digest == digest && Ok()
      ensures issued == map[] && started == map[] && statements == {} && cursors == {} && serverRows == 0
    {
      this.server, this.digest := server, digest;
      serverRows, serverToken, fallbackToken, fallbackQuery := 0, None, None, 0;
      issued, bound, discarded, statements, cursors := map[], multiset{}, {}, {}, {};
      counted, started, ended := {}, map[], multiset{};
      new;
      NothingIsLinear<Statement>();
      NothingIsLinear<Cursor>();
      assert Held() == map[] && Profiles() == map[];
    }

    // ---- calls to the span runtime

    method Discard(t: Token)
      modifies this`discarded
      ensures discarded == old(discarded) + {t}
    {
      discarded := discarded + {t};
    }

    method Bind(t: Token)
      modifies this`bound
      ensures bound == old(bound) + multiset{t}
    {
      bound := bound + multiset{t};
    }

    // ---- the marker

    /** Opens a server scope for the operation, unless a result set is still open. */
    method ServerScope(op: Operation, m: Marker)
      requires Valid() && op.serverToken == None && (m.token.Some? ==> m.token.value !in issued)
      modifies this`serverToken, this`fallbackToken, this`issued, this`discarded, op`serverToken
      ensures During(op.serverToken)
      ensures var opens := server && old(serverRows) == 0 && op.enabled;
        && op.serverToken == (if opens && m.Confirmed() then m.token else None)
        && issued == (if opens && m.Registers() then old(issued)[m.token.value := op.query] else old(issued))
      ensures fallbackToken == if server then None else old(fallbackToken)
      ensures server && old(serverRows) > 0 && old(serverToken).Some? ==> old(serverToken).value in discarded
    {
      hide Linear, SameSql, Held;
      if !server {
        return;
      }
      var overlap := serverRows > 0;
      ClearStale(overlap);
      if overlap || !op.enabled || !m.canPrepare {
        return;
      }
      SendMarker(op, m);
    }

    /** Gives up a token that waits in vain, and the latest scope when a result set is still open. */
    method ClearStale(overlap: bool)
      requires Valid() && server
      modifies this`fallbackToken, this`discarded
      ensures Valid() && fallbackToken == None
      ensures overlap && serverToken.Some? ==> serverToken.value in discarded
    {
      hide Linear, CursorsOk, Held;
      ghost var l := Tokens(None);
      var stale := fallbackToken;
      if stale.Some? {
        DiscardFallback(l);
        l := l.(discarded := l.discarded + {stale.value}, fallback := None);
      }
      fallbackToken := None;
      if overlap {
        var current := serverToken;
        if current.Some? {
          ClientLedger.Discard(l, current.value);
          l := l.(discarded := l.discarded + {current.value});
          Discard(current.value);
        }
        if stale.Some? && stale != current {
          Discard(stale.value);
        }
      } else if stale.Some? {
        Discard(stale.value);
      }
      assert Tokens(None) == l;
    }

    /** The span runtime hands out a token. */
    method Register(t: Token, query: string)
      requires Valid() && server && t !in issued
      modifies this`issued
      ensures During(Some(t)) && issued == old(issued)[t := query]
    {
      hide Linear;
      ghost var l := Tokens(None);
      Issue(l, t, query);
      OwnersAreIssued(l);
      assert forall s :: s in statements && s.serverToken.Some? ==> s in Held();
      issued := issued[t := query];
      assert Tokens(Some(t)) == l.(issued := issued, op := Some(t));
    }

    /** The operation gives its token up. */
    method GiveUp(t: Token)
      requires During(Some(t))
      modifies this`discarded
      ensures Valid()
    {
      hide Linear, CursorsOk;
      ghost var l := Tokens(Some(t));
      DiscardOp(l);
      Discard(t);
      assert Tokens(None) == l.(discarded := discarded, op := None);
    }

    /** Registers a token and runs the marker query; a token whose marker fails is discarded. */
    method SendMarker(op: Operation, m: Marker)
      requires Valid() && op.serverToken == None && server && m.canPrepare
      requires (m.token.Some? ==> m.token.value !in issued)
      modifies this`serverToken, this`issued, this`discarded, op`serverToken
      ensures During(op.serverToken) && op.serverToken == if m.Confirmed() then m.token else None
      ensures issued == if m.Registers() then old(issued)[m.token.value := op.query] else old(issued)
    {
      hide Linear, SameSql, Held;
      if m.token == None {
        return;
      }
      var t := m.token.value;
      Register(t, op.query);
      var confirmed := RunMarker(m);
      if confirmed {
        op.serverToken := Some(t);
        serverToken := Some(t);
      } else {
        GiveUp(t);
      }
    }

    /** The marker query itself, step by step. */
    method RunMarker(m: Marker) returns (confirmed: bool)
      requires m.canPrepare && m.token.Some?
      ensures confirmed == m.Confirmed()
    {
      if !m.prepared {
        return false;
      }
      if !m.canQuery {
        return false;
      }
      var failed := false;
      match m.answer {
        case NoRows => return false;
        case QueryFailed => failed := true;
        case Rows(first, second, closes) =>
          failed := first != Row;
          if !failed {
            failed := second == ReadError;
          }
          if !closes {
            failed := true;
          }
      }
      if !m.stmtCloses {
        failed := true;
      }
      confirmed := !failed;
    }

    // ---- the fallback slot

    /** database/sql will retry a skipped call through a prepared statement; the token waits for it. */
    method PreserveFallback(op: Operation, outcome: Outcome)
      requires During(op.serverToken)
      requires op.serverToken.Some? ==> op.serverToken.value in issued && issued[op.serverToken.value] == op.query
      modifies this`fallbackToken, this`fallbackQuery, this`discarded, op`serverToken
      ensures During(op.serverToken)
      ensures if outcome == Skipped && old(op.serverToken).Some? then
          op.serverToken == None && fallbackToken == old(op.serverToken) && fallbackQuery == digest(op.query)
        else
          && op.serverToken == old(op.serverToken) && fallbackToken == old(fallbackToken)
          && fallbackQuery == old(fallbackQuery)
    {
      hide Linear, CursorsOk;
      if outcome != Skipped || op.serverToken == None {
        return;
      }
      ghost var l := Tokens(op.serverToken);
      OpToFallback(l);
      OwnersDiffer(l);
      var token, stale := op.serverToken, fallbackToken;
      fallbackToken := token;
      fallbackQuery := digest(op.query);
      op.serverToken := None;
      if stale.Some? && stale != token {
        Discard(stale.value);
      }
      assert Tokens(None)
        == l.(op := None, fallback := token, discarded := l.discarded + if stale.Some? then {stale.value} else {});
    }

    /** The waiting token, if it waits for this SQL; any other is given up. */
    method TakeFallback(query: string) returns (token: Option<Token>)
      requires Valid()
      modifies this`fallbackToken, this`fallbackQuery, this`discarded
      ensures During(token) && fallbackToken == None
      ensures token
        == if old(fallbackToken).Some? && old(fallbackQuery) == digest(query) then old(fallbackToken) else None
      ensures token.Some? ==> token.value in issued && digest(issued[token.value]) == digest(query)
    {
      hide Linear, CursorsOk;
      ghost var l := Tokens(None);
      OwnersAreIssued(l);
      if fallbackToken.Some? {
        DiscardFallback(l);
        FallbackToHand(l);
      }
      token := fallbackToken;
      var match_ := token.Some? && fallbackQuery == digest(query);
      fallbackToken := None;
      fallbackQuery := 0;
      if token.Some? && !match_ {
        Discard(token.value);
        assert Tokens(None) == l.(discarded := l.discarded + {token.value}, fallback := None);
        token := None;
      } else {
        assert Tokens(token) == l.(op := token, fallback := None);
      }
    }

    method DiscardFallbackToken()
      requires Valid()
      modifies this`fallbackToken, this`fallbackQuery, this`discarded
      ensures Valid() && fallbackToken == None
    {
      hide Linear, CursorsOk;
      ghost var l := Tokens(None);
      var token := fallbackToken;
      if token.Some? {
        DiscardFallback(l);
      }
      fallbackToken := None;
      fallbackQuery := 0;
      if token.Some? {
        Discard(token.value);
        assert Tokens(None) == l.(discarded := l.discarded + {token.value}, fallback := None);
      } else {
        assert Tokens(None) == l;
      }
    }

    // ---- the end of an operation

    /** Binds or discards the token of the operation; `recording` says whether its span is. */
    method Finish(op: Operation, outcome: Outcome, recording: bool)
      requires During(op.serverToken) && (!op.enabled ==> op.serverToken == None)
      modifies this`bound, this`discarded
      ensures Valid()
      ensures bound == old(bound) + if op.serverToken.Some? && outcome == Succeeded && recording
                                    then multiset{op.serverToken.value} else multiset{}
      ensures op.serverToken.Some? ==> op.serverToken.value in bound || op.serverToken.value in discarded
    {
      hide Linear, CursorsOk;
      ghost var l := Tokens(op.serverToken);
      if op.serverToken.Some? {
        DiscardOp(l);
        BindOp(l);
      }
      if op.fallback && outcome == Skipped {
        if op.serverToken.Some? {
          Discard(op.serverToken.value);
        }
      } else if op.enabled && op.serverToken.Some? {
        if outcome != Succeeded {
          Discard(op.serverToken.value);
        } else if recording {
          Bind(op.serverToken.value);
        } else {
          Discard(op.serverToken.value);
        }
      }
      assert Tokens(None)
        == if op.serverToken == None then l
           else if outcome == Succeeded && recording then
             l.(bound := l.bound + multiset{op.serverToken.value}, op := None)
           else l.(discarded := l.discarded + {op.serverToken.value}, op := None);
    }

    // ---- profiling sessions

    method ProfileStart(op: Operation, profile: Option<Handle>)
      requires Profiled(None) && op.profile == None && (profile.Some? ==> profile.value !in started)
      modifies this`started, op`profile
      ensures Profiled(op.profile) && op.profile == if op.enabled then profile else None
    {
      hide Linear;
      if !op.enabled || profile == None {
        return;
      }
      ghost var h := Handles(None);
      Issue(h, profile.value, op.query);
      started := started[profile.value := op.query];
      op.profile := profile;
      assert Handles(profile) == h.(issued := started, op := profile);
    }

    /** Finishes the session, or cancels it when database/sql will call again. */
    method ProfileFinish(op: Operation)
      requires Profiled(op.profile)
      modifies this`ended
      ensures Profiled(None)
      ensures ended == old(ended) + if op.profile.Some? then multiset{op.profile.value} else multiset{}
    {
      hide Linear;
      ghost var h := Handles(op.profile);
      if op.profile.Some? {
        BindOp(h);
        ended := ended + multiset{op.profile.value};
        assert Handles(None) == h.(bound := ended, op := None);
      }
    }

    /** The result of a query: a result set with what it has to release, or the end of the profiling session at once. */
    method QueryResult(op: Operation, outcome: Outcome, hasRows: bool, recording: bool) returns (cursor: Option<Cursor>)
      requires During(op.serverToken) && Profiled(op.profile) && (!op.enabled ==> op.serverToken == None)
      modifies this`serverRows, this`cursors, this`counted, this`bound, this`discarded, this`ended
      ensures Ok()
      ensures cursor.Some? <==> outcome == Succeeded && hasRows && (server || op.profile.Some?)
      ensures if cursor.Some? then fresh(cursor.value) && cursors == old(cursors) + {cursor.value}
              else cursors == old(cursors)
    {
      hide Linear, SameSql, Held;
      cursor := None;
      if outcome != Succeeded || !hasRows {
        Finish(op, outcome, recording);
        ProfileFinish(op);
      } else if server || op.profile.Some? {
        var c := OpenCursor(op.serverToken, op.profile);
        cursor := Some(c);
        Finish(op, outcome, recording);
      } else {
        Finish(op, outcome, recording);
      }
    }

    method Uncount(c: Cursor)
      requires CursorsOk() && c in cursors
      modifies this`serverRows, this`cursors, this`counted
      ensures CursorsOk() && cursors == old(cursors) - {c} && c.conn == this && !c.closed && c.released == 0
      ensures serverRows == old(serverRows) - (if c.counts then 1 else 0) && serverRows >= 0
    {
      if c.counts {
        serverRows := serverRows - 1;
        counted := counted - {c};
      }
      cursors := cursors - {c};
    }

    method Count(profile: Option<Handle>) returns (c: Cursor)
      requires CursorsOk()
      modifies this`serverRows, this`cursors, this`counted
      ensures CursorsOk() && fresh(c) && c.profile == profile && cursors == old(cursors) + {c}
      ensures serverRows == old(serverRows) + if server then 1 else 0
    {
      c := new Cursor(this, server, profile);
      if server {
        serverRows := serverRows + 1;
        counted := counted + {c};
      }
      cursors := cursors + {c};
    }

    /** What closing a result set does to the connection. */
    method Release(c: Cursor)
      requires Ok() && c in cursors
      modifies this`serverRows, this`cursors, this`counted, this`ended
      ensures Ok() && cursors == old(cursors) - {c} && c.conn == this && !c.closed && c.released == 0
      ensures serverRows == old(serverRows) - (if c.counts then 1 else 0) && serverRows >= 0
      ensures ended == old(ended) + if c.profile.Some? then multiset{c.profile.value} else multiset{}
    {
      hide Linear, SameSql, Held, Tokens, CursorsOk;
      ghost var h := Handles(None);
      ghost var before := Profiles();
      Uncount(c);
      assert Profiles() == before - {c};
      if c.profile.Some? {
        ended := ended + multiset{c.profile.value};
      }
      EndHeld(h, Handles(None), c);
    }

    method OpenCursor(ghost token: Option<Token>, profile: Option<Handle>) returns (c: Cursor)
      requires During(token) && Profiled(profile)
      modifies this`serverRows, this`cursors, this`counted
      ensures During(token) && Profiled(None)
      ensures fresh(c) && cursors == old(cursors) + {c} && serverRows == old(serverRows) + if server then 1 else 0
    {
      hide Linear, SameSql, Held, Tokens, CursorsOk;
      ghost var h := Handles(profile);
      ghost var before := Profiles();
      c := Count(profile);
      assert Profiles() == if profile.Some? then before[c := profile.value] else before;
      HandOver(h, Handles(None), c);
    }

    // ---- the calls of database/sql

    method Prepare(query: string, outcome: Outcome, enabled: bool, recording: bool) returns (s: Option<Statement>)
      requires Ok()
      modifies this`fallbackToken, this`fallbackQuery, this`bound, this`discarded, this`statements
      ensures Ok() && (s.Some? <==> outcome == Succeeded)
      ensures fallbackToken == None
      ensures if s.Some? then fresh(s.value) && s.value.query == query && statements == old(statements) + {s.value}
              else statements == old(statements)
    {
      hide Linear;
      var op := new Operation(query, enabled, false);
      Finish(op, outcome, recording);
      if outcome != Succeeded {
        DiscardFallbackToken();
        return None;
      }
      var token := TakeFallback(query);
      var p := NewStatement(query, token);
      s := Some(p);
    }

    method NewStatement(query: string, token: Option<Token>) returns (s: Statement)
      requires During(token) && fallbackToken == None
      requires token.Some? ==> token.value in issued && digest(issued[token.value]) == digest(query)
      modifies this`statements
      ensures Valid() && fresh(s) && s.query == query && s.conn == this && s.serverToken == token
      ensures statements == old(statements) + {s}
    {
      hide Linear, CursorsOk;
      ghost var l := Tokens(token);
      s := new Statement(query, this, token);
      if token.Some? {
        HandToStatement(l, s);
      }
      ghost var before := Held();
      statements := statements + {s};
      assert Held() == if token.Some? then before[s := token.value] else before;
      assert Tokens(None) == if token.Some? then l.(op := None, held := l.held[s := token.value]) else l;
    }

    method Exec(query: string, enabled: bool, profile: Option<Handle>, m: Marker, outcome: Outcome, recording: bool)
      requires Ok() && Fresh(m, profile)
      modifies this`serverToken, this`fallbackToken, this`fallbackQuery, this`issued, this`bound, this`discarded,
               this`started, this`ended
      ensures Ok()
      ensures fallbackToken.Some? && server ==> outcome == Skipped && fallbackQuery == digest(query)
    {
      hide Linear, During, Profiled;
      var op := new Operation(query, enabled, true);
      ProfileStart(op, profile);
      ServerScope(op, m);
      PreserveFallback(op, outcome);
      Finish(op, outcome, recording);
      ProfileFinish(op);
    }

    method Query(
        query: string, enabled: bool, profile: Option<Handle>, m: Marker, outcome: Outcome, hasRows: bool,
        recording: bool)
      returns (cursor: Option<Cursor>)
      requires Ok() && Fresh(m, profile)
      modifies this`serverToken, this`fallbackToken, this`fallbackQuery, this`issued, this`bound, this`discarded,
               this`serverRows, this`cursors, this`counted, this`started, this`ended
      ensures Ok()
      ensures fallbackToken.Some? && server ==> outcome == Skipped && fallbackQuery == digest(query)
      ensures cursor.Some? <==> outcome == Succeeded && hasRows && (server || (enabled && profile.Some?))
      ensures if cursor.Some? then fresh(cursor.value) && cursors == old(cursors) + {cursor.value}
              else cursors == old(cursors)
    {
      hide Linear, During, Profiled;
      var op := new Operation(query, enabled, true);
      ProfileStart(op, profile);
      ServerScope(op, m);
      PreserveFallback(op, outcome);
      cursor := QueryResult(op, outcome, hasRows, recording);
    }

    method Close()
      requires Ok()
      modifies this`fallbackToken, this`fallbackQuery, this`discarded
      ensures Ok() && fallbackToken == None
    {
      DiscardFallbackToken();
    }

    /** With the connection and its statements closed, every token was bound or discarded, and none was bound twice. */
    lemma ClosedIsSettled(t: Token)
      requires Ok() && fallbackToken == None && (forall s :: s in statements ==> s.serverToken == None)
      requires t in issued
      ensures (t in bound || t in discarded) && bound[t] <= 1
    {
      assert Held() == map[];
      NobodyHolds(Tokens(None), t);
    }

    /** With the result sets closed as well, every profiling session was ended exactly once. */
    lemma ClosedIsProfiled(p: Handle)
      requires Ok() && cursors == {} && p in started
      ensures ended[p] == 1 && serverRows == 0
    {
      assert Profiles() == map[];
      NobodyHolds(Handles(None), p);
    }
  }

  /** A result set takes over the session of its operation, if there is one. */
  lemma HandOver(h: Ledger<Cursor>, g: Ledger<Cursor>, c: Cursor)
    requires Linear(h) && c !in h.held
    requires g == if h.op.Some? then h.(op := None, held := h.held[c := h.op.value]) else h
    ensures Linear(g)
  {
    hide Linear;
    if h.op.Some? {
      HandToStatement(h, c);
    }
  }

  lemma EndHeld(h: Ledger<Cursor>, g: Ledger<Cursor>, c: Cursor)
    requires Linear(h)
    requires g
      == if c in h.held then h.(bound := h.bound + multiset{h.held[c]}, held := h.held - {c})
         else h.(held := h.held - {c})
    ensures Linear(g)
  {
    hide Linear;
    if c in h.held {
      BindHeld(h, c);
    } else {
      assert h.held - {c} == h.held;
    }
  }
}
