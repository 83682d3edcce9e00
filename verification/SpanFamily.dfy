/** Which executions belong together, said of the parser's history alone: what a server tree ought to hold. */
module SpanFamily {
  import opened TraceEvents
  import opened TracePairing

  /** The consumer takes the start as work of the server, not as a marker query. */
  predicate Collects(e: Event) {
    e.PairedStart() && e.scopeToken == []
  }

  /** The consumer takes the finish as the end of an execution, not as the end of a marker query. */
  predicate Ends(e: Event) {
    e.PairedFinish() && e.scopeToken == []
  }

  ghost predicate Ended(h: seq<Event>, n: nat) {
    exists j :: 0 <= j < |h| && Ends(h[j]) && h[j].sequence == n
  }

  ghost predicate Member(fam: seq<Event>, n: nat) {
    exists i :: 0 <= i < |fam| && fam[i].sequence == n
  }

  ghost predicate Belongs(fam: seq<Event>, root: nat, e: Event) {
    Collects(e) && (e.sequence == root || (e.parent != 0 && Member(fam, e.parent)))
  }

  /** The start numbered `root` and, in order, every unmarked start under it. */
  ghost function Family(h: seq<Event>, root: nat): seq<Event> {
    if h == [] then [] else
    var fam := Family(h[..|h| - 1], root);
    if Belongs(fam, root, h[|h| - 1]) then fam + [h[|h| - 1]] else fam
  }

  lemma FamilyAppend(h: seq<Event>, e: Event, root: nat)
    ensures Family(h + [e], root)
      == if Belongs(Family(h, root), root, e) then Family(h, root) + [e] else Family(h, root)
  {
  }

  lemma EndedAppend(h: seq<Event>, e: Event, n: nat)
    ensures Ended(h + [e], n) <==> Ended(h, n) || (Ends(e) && e.sequence == n)
  {
    var g := h + [e];
    if Ended(h, n) {
      var j :| 0 <= j < |h| && Ends(h[j]) && h[j].sequence == n;
      assert g[j] == h[j];
    }
    assert g[|h|] == e;
  }

  /** A member is the start of its number. */
  ghost predicate IsStart(h: seq<Event>, m: Event) {
    1 <= m.sequence <= |Starts(h)| && Starts(h)[m.sequence - 1] == m
  }

  lemma {:induction false} MembersAreStarts(h: seq<Event>, root: nat, i: nat)
    requires Numbered(h) && i < |Family(h, root)|
    ensures IsStart(h, Family(h, root)[i]) && Family(h, root)[i].scopeToken == []
  {
    var e, g := h[|h| - 1], h[..|h| - 1];
    StartsPrefixOf(h);
    if i < |Family(g, root)| {
      MembersAreStarts(g, root, i);
    } else {
      assert Starts(h)[|Starts(h)| - 1] == e;
    }
  }

  lemma StartsPrefixOf(h: seq<Event>)
    requires h != [] && Numbered(h)
    ensures Numbered(h[..|h| - 1]) && Starts(h[..|h| - 1]) <= Starts(h)
  {
    StartsOfPrefix(h, |h| - 1);
  }

  /** A member after the first names an earlier member as its parent. */
  ghost predicate HasParent(fam: seq<Event>, i: nat)
    requires i < |fam|
  {
    exists k :: 0 <= k < i && fam[k].sequence == fam[i].parent
  }

  /** The family starts with its root, is closed under parents, and lists nobody twice. */
  lemma {:induction false} FamilyIsClosed(h: seq<Event>, root: nat)
    requires Numbered(h)
    ensures var fam := Family(h, root);
      && (fam != [] ==> fam[0].sequence == root)
      && (forall i :: 0 < i < |fam| ==> HasParent(fam, i))
      && (forall i, j :: 0 <= i < j < |fam| ==> fam[i].sequence < fam[j].sequence)
  {
    if h != [] {
      hide Starts;
      StartsPrefixOf(h);
      var e, g := h[|h| - 1], h[..|h| - 1];
      FamilyIsClosed(g, root);
      var before, fam := Family(g, root), Family(h, root);
      if Belongs(before, root, e) {
        NewestIsLast(h);
        forall i | 0 <= i < |before| ensures before[i].sequence < e.sequence {
          MembersAreStarts(g, root, i);
        }
        forall i | 0 < i < |fam| ensures HasParent(fam, i) {
          ParentStays(before, e, root, i);
        }
      }
    }
  }

  lemma NewestIsLast(h: seq<Event>)
    requires h != [] && Numbered(h) && h[|h| - 1].PairedStart()
    ensures h[|h| - 1].sequence == |Starts(h[..|h| - 1])| + 1
  {
    var n := |Starts(h)| - 1;
    assert Starts(h)[n] == h[|h| - 1];
  }

  lemma ParentStays(before: seq<Event>, e: Event, root: nat, i: nat)
    requires 0 < i <= |before| && Belongs(before, root, e) && before[0].sequence == root && root < e.sequence
    requires forall k :: 0 < k < |before| ==> HasParent(before, k)
    ensures HasParent(before + [e], i)
  {
    var fam := before + [e];
    if i < |before| {
      assert HasParent(before, i);
      var k :| 0 <= k < i && before[k].sequence == before[i].parent;
      assert fam[k].sequence == fam[i].parent;
    } else {
      var k :| 0 <= k < |before| && before[k].sequence == e.parent;
      assert fam[k].sequence == fam[i].parent;
    }
  }

  lemma {:induction false} NoFamilyYet(h: seq<Event>, root: nat)
    requires Numbered(h) && root > |Starts(h)|
    ensures Family(h, root) == []
  {
    if h != [] {
      StartsPrefixOf(h);
      NoFamilyYet(h[..|h| - 1], root);
      if h[|h| - 1].PairedStart() {
        NewestIsLast(h);
      }
    }
  }

  /** When the root has finished, so has everyone in its family. */
  lemma {:induction false} FamilyEndsBeforeRoot(h: seq<Event>, root: nat, i: nat)
    requires History(h) && i < |Family(h, root)| && root > 0 && !Open(h, root)
    ensures !Open(h, Family(h, root)[i].sequence)
    decreases i
  {
    hide Starts, Open, Family, Numbered, FinishesMatch, FinishesOnce, ParentsOpen, Phased;
    var fam := Family(h, root);
    FamilyIsClosed(h, root);
    if i > 0 {
      assert HasParent(fam, i);
      var k :| 0 <= k < i && fam[k].sequence == fam[i].parent;
      FamilyEndsBeforeRoot(h, root, k);
      MembersAreStarts(h, root, i);
      MembersAreStarts(h, root, k);
      assert h[..|h|] == h;
      assert ChildrenFinishFirst(h);
    }
  }

  /** Everyone in the family runs in the scope of the root. */
  lemma {:induction false} FamilySharesScope(h: seq<Event>, root: nat, i: nat)
    requires History(h) && i < |Family(h, root)| && root > 0
    ensures Family(h, root)[i].Scope() == Family(h, root)[0].Scope()
    decreases i
  {
    hide Starts, Open, Family, Numbered, FinishesMatch, FinishesOnce, ParentsOpen, Phased;
    var fam := Family(h, root);
    FamilyIsClosed(h, root);
    if i > 0 {
      assert HasParent(fam, i);
      var k :| 0 <= k < i && fam[k].sequence == fam[i].parent;
      FamilySharesScope(h, root, k);
      MembersAreStarts(h, root, i);
      MembersAreStarts(h, root, k);
      assert h[..|h|] == h;
      assert ChildrenFinishFirst(h);
      assert SameScope(h, Starts(h)[fam[i].sequence - 1]);
    }
  }
}
