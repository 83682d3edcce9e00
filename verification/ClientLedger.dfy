/** Where the marker tokens of one connection are, said of values (server_scope.go). */
module ClientLedger {
  import opened Options

  type Token = nat

  /**
   * What the connection has asked of the server trace, and who holds a token: the operation under way,
   * the fallback slot, and the prepared statements, which are named by `S`.
   */
  datatype Ledger<S> = Ledger(
    issued: map<Token, string>,
    bound: multiset<Token>,
    discarded: set<Token>,
    op: Option<Token>,
    fallback: Option<Token>,
    held: map<S, Token>)

  ghost predicate Settled(l: Ledger, t: Token) {
    t in l.bound || t in l.discarded
  }

  ghost predicate Owned<S>(l: Ledger<S>, t: Token) {
    l.op == Some(t) || l.fallback == Some(t) || exists s :: s in l.held && l.held[s] == t
  }

  /** At most one holder has the token. */
  ghost predicate OneOwner<S>(l: Ledger<S>, t: Token) {
    && !(l.op == Some(t) && l.fallback == Some(t))
    && (forall s :: s in l.held && l.held[s] == t ==> l.op != Some(t) && l.fallback != Some(t))
    && (forall s, r :: s in l.held && r in l.held && l.held[s] == t && l.held[r] == t ==> s == r)
  }

  ghost predicate TokenOk<S>(l: Ledger<S>, t: Token) {
    && (t in l.issued && !Settled(l, t) ==> Owned(l, t))
    && (Owned(l, t) ==> t in l.issued && t !in l.bound)
    && OneOwner(l, t) && l.bound[t] <= 1 && (Settled(l, t) ==> t in l.issued)
  }

  /** Tokens move linearly: no token is lost, held twice, or bound twice. */
  ghost predicate Linear<S>(l: Ledger<S>) {
    forall t: Token :: TokenOk(l, t)
  }

  lemma NothingIsLinear<S>()
    ensures var l: Ledger<S> := Ledger(map[], multiset{}, {}, None, None, map[]); Linear(l)
  {
  }

  lemma Issue<S>(l: Ledger<S>, t: Token, q: string)
    requires Linear(l) && t !in l.issued && l.op == None
    ensures Linear(l.(issued := l.issued[t := q], op := Some(t)))
  {
    assert TokenOk(l, t);
    var g := l.(issued := l.issued[t := q], op := Some(t));
    forall u: Token ensures TokenOk(g, u) {
      assert TokenOk(l, u);
    }
  }

  /** Discarding a token, whoever holds it. */
  lemma Discard<S>(l: Ledger<S>, t: Token)
    requires Linear(l) && t in l.issued
    ensures Linear(l.(discarded := l.discarded + {t}))
  {
    var g := l.(discarded := l.discarded + {t});
    forall u: Token ensures TokenOk(g, u) {
      assert TokenOk(l, u);
    }
  }

  /** The operation discards its token and ends. */
  lemma DiscardOp<S>(l: Ledger<S>)
    requires Linear(l) && l.op.Some?
    ensures Linear(l.(discarded := l.discarded + {l.op.value}, op := None))
  {
    var g := l.(discarded := l.discarded + {l.op.value}, op := None);
    forall u: Token ensures TokenOk(g, u) {
      assert TokenOk(l, u);
    }
  }

  /** The operation binds its token and ends. */
  lemma BindOp<S>(l: Ledger<S>)
    requires Linear(l) && l.op.Some?
    ensures Linear(l.(bound := l.bound + multiset{l.op.value}, op := None)) && l.op.value !in l.bound
  {
    var t := l.op.value;
    assert TokenOk(l, t);
    var g := l.(bound := l.bound + multiset{t}, op := None);
    forall u: Token ensures TokenOk(g, u) {
      assert TokenOk(l, u);
    }
  }

  /** The token of the operation waits for the statement database/sql prepares next; what waited before is given up. */
  lemma OpToFallback<S>(l: Ledger<S>)
    requires Linear(l) && l.op.Some?
    ensures Linear(l.(op := None, fallback := l.op,
                      discarded := l.discarded + if l.fallback.Some? then {l.fallback.value} else {}))
  {
    var gone := if l.fallback.Some? then {l.fallback.value} else {};
    var g := l.(op := None, fallback := l.op, discarded := l.discarded + gone);
    forall u: Token ensures TokenOk(g, u) {
      assert TokenOk(l, u);
    }
  }

  lemma DiscardFallback<S>(l: Ledger<S>)
    requires Linear(l) && l.fallback.Some?
    ensures Linear(l.(discarded := l.discarded + {l.fallback.value}, fallback := None))
  {
    var g := l.(discarded := l.discarded + {l.fallback.value}, fallback := None);
    forall u: Token ensures TokenOk(g, u) {
      assert TokenOk(l, u);
    }
  }

  /** The waiting token comes into the hands of the call that prepares. */
  lemma FallbackToHand<S>(l: Ledger<S>)
    requires Linear(l) && l.op == None && l.fallback.Some?
    ensures Linear(l.(op := l.fallback, fallback := None))
  {
    var g := l.(op := l.fallback, fallback := None);
    forall u: Token ensures TokenOk(g, u) {
      assert TokenOk(l, u);
    }
  }

  lemma HandToStatement<S>(l: Ledger<S>, s: S)
    requires Linear(l) && l.op.Some? && s !in l.held
    ensures Linear(l.(op := None, held := l.held[s := l.op.value]))
  {
    var g := l.(op := None, held := l.held[s := l.op.value]);
    forall u: Token ensures TokenOk(g, u) {
      assert TokenOk(l, u);
      if Owned(l, u) && l.op != Some(u) && l.fallback != Some(u) {
        var r :| r in l.held && l.held[r] == u;
        assert r in g.held && g.held[r] == u;
      }
      assert s in g.held;
    }
  }

  lemma StatementToOp<S>(l: Ledger<S>, s: S)
    requires Linear(l) && l.op == None && s in l.held
    ensures Linear(l.(op := Some(l.held[s]), held := l.held - {s}))
  {
    var g := l.(op := Some(l.held[s]), held := l.held - {s});
    forall u: Token ensures TokenOk(g, u) {
      assert TokenOk(l, u);
      if Owned(l, u) && l.fallback != Some(u) && u != l.held[s] {
        var r :| r in l.held && l.held[r] == u;
        assert r in g.held && g.held[r] == u;
      }
    }
  }

  lemma BindHeld<S>(l: Ledger<S>, s: S)
    requires Linear(l) && s in l.held
    ensures Linear(l.(bound := l.bound + multiset{l.held[s]}, held := l.held - {s}))
  {
    var g := l.(bound := l.bound + multiset{l.held[s]}, held := l.held - {s});
    forall u: Token ensures TokenOk(g, u) {
      assert TokenOk(l, u);
      if Owned(l, u) && l.op != Some(u) && l.fallback != Some(u) && u != l.held[s] {
        var r :| r in l.held && l.held[r] == u;
        assert r in g.held && g.held[r] == u;
      }
    }
  }

  lemma DiscardHeld<S>(l: Ledger<S>, s: S)
    requires Linear(l) && s in l.held
    ensures Linear(l.(discarded := l.discarded + {l.held[s]}, held := l.held - {s}))
  {
    var g := l.(discarded := l.discarded + {l.held[s]}, held := l.held - {s});
    forall u: Token ensures TokenOk(g, u) {
      assert TokenOk(l, u);
      if Owned(l, u) && l.op != Some(u) && l.fallback != Some(u) && u != l.held[s] {
        var r :| r in l.held && l.held[r] == u;
        assert r in g.held && g.held[r] == u;
      }
    }
  }

  lemma OwnersDiffer<S>(l: Ledger<S>)
    requires Linear(l)
    ensures l.op.Some? ==> l.fallback != l.op
  {
    if l.op.Some? {
      assert TokenOk(l, l.op.value);
    }
  }

  lemma OwnersAreIssued<S>(l: Ledger<S>)
    requires Linear(l)
    ensures l.fallback.Some? ==> l.fallback.value in l.issued
    ensures forall s :: s in l.held ==> l.held[s] in l.issued
  {
    if l.fallback.Some? {
      assert TokenOk(l, l.fallback.value);
    }
    forall s | s in l.held ensures l.held[s] in l.issued {
      assert TokenOk(l, l.held[s]);
    }
  }

  /** When nobody holds a token any more, every token that was issued has been bound or discarded. */
  lemma NobodyHolds<S>(l: Ledger<S>, t: Token)
    requires Linear(l) && l.op == None && l.fallback == None && l.held == map[] && t in l.issued
    ensures Settled(l, t) && l.bound[t] <= 1
  {
    assert TokenOk(l, t);
  }

  /** A token that was bound is with nobody, so nobody can bind it again. */
  lemma BoundIsReleased<S>(l: Ledger<S>, t: Token)
    requires Linear(l) && t in l.bound
    ensures !Owned(l, t) && l.bound[t] == 1
  {
    assert TokenOk(l, t);
  }
}
