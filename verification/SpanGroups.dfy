/**
 * Collapsing fast repeated leaf procedures of a finished tree (trace/spans.go, repeatedLeaves). Durations are in
 * nanoseconds.
 */
module SpanGroups {
  import opened Options
  import opened Utf8
  import opened TraceEvents
  import opened SpanForest

  const MAX_GROUPS: nat := 8
  const MIN_REPEATS: nat := 3
  const MIN_NODES: nat := 4
  const FAST: int := 2_000_000
  const MILLISECOND: int := 1_000_000

  datatype Key = Key(parent: nat, name: Bytes)
  datatype Group = Group(key: Key, count: nat, total: int, longest: int, sequences: seq<nat>)
  type Clock = Bytes -> Option<int>

  function Max(a: int, b: int): int {
    if a < b then b else a
  }

  /** How long the execution took, by its own counter or by the clock, whichever says more. */
  function Duration(clock: Clock, n: Node): Option<int>
    requires n.finish.Some?
  {
    var start, end := clock(n.start.timestamp), clock(n.finish.value.timestamp);
    if start.None? || end.None? || end.value < start.value then None
    else Some(Max(n.finish.value.durationMS * MILLISECOND, end.value - start.value))
  }

  predicate HasChild(nodes: seq<Node>, n: nat) {
    exists i :: 0 <= i < |nodes| && nodes[i].start.parent == n
  }

  predicate Idle(e: Event) {
    e.pageReads == 0 && e.pageWrites == 0 && e.pageFetches == 0 && e.pageMarks == 0 && e.tables == []
  }

  /** A complete procedure that did no I/O, called nothing and was fast. */
  predicate FastLeaf(clock: Clock, nodes: seq<Node>, n: Node) {
    && n.finish.Some? && n.start.kind == Procedure && !HasChild(nodes, n.start.sequence) && Idle(n.finish.value)
    && Duration(clock, n).Some? && Duration(clock, n).value <= FAST
  }

  function KeyOf(n: Node): Key {
    Key(n.start.parent, n.start.name)
  }

  predicate InGroup(clock: Clock, nodes: seq<Node>, i: nat, k: Key) {
    0 < i < |nodes| && FastLeaf(clock, nodes, nodes[i]) && KeyOf(nodes[i]) == k
  }

  /** The fast leaves with one parent and one name, among the first `n` nodes and below the root. */
  function GroupOf(clock: Clock, nodes: seq<Node>, k: Key, n: nat): (g: Group)
    requires n <= |nodes|
    ensures g.key == k && g.count == |g.sequences|
  {
    if n == 0 then Group(k, 0, 0, 0, []) else
    var g := GroupOf(clock, nodes, k, n - 1);
    if !InGroup(clock, nodes, n - 1, k) then g else
    var d := Duration(clock, nodes[n - 1]).value;
    Group(k, g.count + 1, g.total + d, Max(g.longest, d), g.sequences + [nodes[n - 1].start.sequence])
  }

  // ---- the order of the groups

  predicate Below(a: Bytes, b: Bytes) {
    if b == [] then false
    else if a == [] then true
    else if a[0] != b[0] then a[0] < b[0]
    else Below(a[1..], b[1..])
  }

  lemma {:induction false} BelowIsTransitive(a: Bytes, b: Bytes, c: Bytes)
    requires Below(a, b) && Below(b, c)
    ensures Below(a, c)
  {
    if a != [] && a[0] == b[0] && b[0] == c[0] {
      BelowIsTransitive(a[1..], b[1..], c[1..]);
    }
  }

  lemma {:induction false} BelowIsTotal(a: Bytes, b: Bytes)
    ensures a == b || Below(a, b) || Below(b, a)
  {
    if a != [] && b != [] && a[0] == b[0] {
      BelowIsTotal(a[1..], b[1..]);
      assert a == [a[0]] + a[1..] && b == [b[0]] + b[1..];
    }
  }

  /** More calls first, then by name, then by parent. */
  predicate Before(a: Group, b: Group) {
    if a.count != b.count then a.count > b.count
    else if a.key.name != b.key.name then Below(a.key.name, b.key.name)
    else a.key.parent < b.key.parent
  }

  lemma BeforeIsTransitive(a: Group, b: Group, c: Group)
    requires Before(a, b) && Before(b, c)
    ensures Before(a, c)
  {
    if a.count == b.count && b.count == c.count && Below(a.key.name, b.key.name) && Below(b.key.name, c.key.name) {
      BelowIsTransitive(a.key.name, b.key.name, c.key.name);
      BelowIsIrreflexive(a.key.name);
    }
  }

  lemma {:induction false} BelowIsIrreflexive(a: Bytes)
    ensures !Below(a, a)
  {
    if a != [] {
      BelowIsIrreflexive(a[1..]);
    }
  }

  lemma BeforeIsTotal(a: Group, b: Group)
    requires a.key != b.key
    ensures Before(a, b) || Before(b, a)
  {
    BelowIsTotal(a.key.name, b.key.name);
  }

  ghost predicate Ordered(s: seq<Group>) {
    forall i, j :: 0 <= i < j < |s| ==> Before(s[i], s[j])
  }

  ghost predicate DistinctKeys(s: seq<Group>) {
    forall i, j :: 0 <= i < j < |s| ==> s[i].key != s[j].key
  }

  method InsertGroup(s: seq<Group>, g: Group) returns (r: seq<Group>)
    requires Ordered(s) && forall i :: 0 <= i < |s| ==> s[i].key != g.key
    ensures Ordered(r) && |r| == |s| + 1 && (forall x :: x in r <==> x in s || x == g)
  {
    var i := |s|;
    while i > 0 && Before(g, s[i - 1])
      invariant 0 <= i <= |s| && forall j :: i <= j < |s| ==> Before(g, s[j])
    {
      i := i - 1;
    }
    forall j | 0 <= j < i ensures Before(s[j], g) {
      BeforeIsTotal(s[i - 1], g);
      if j < i - 1 {
        BeforeIsTransitive(s[j], s[i - 1], g);
      }
    }
    r := s[..i] + [g] + s[i..];
    forall x ensures x in r <==> x in s || x == g {
      assert s == s[..i] + s[i..];
    }
  }

  /** sort.Slice on the selected groups, whatever order the map gave them in. */
  method SortGroups(groups: seq<Group>) returns (s: seq<Group>)
    requires DistinctKeys(groups)
    ensures Ordered(s) && |s| == |groups| && (forall x :: x in s <==> x in groups)
  {
    s := [];
    var i := 0;
    while i < |groups|
      invariant i <= |groups| && Ordered(s) && |s| == i && (forall x :: x in s <==> x in groups[..i])
    {
      forall j | 0 <= j < |s| ensures s[j].key != groups[i].key {
        assert s[j] in groups[..i];
      }
      s := InsertGroup(s, groups[i]);
      assert groups[..i + 1] == groups[..i] + [groups[i]];
      i := i + 1;
    }
    assert groups[..i] == groups;
  }

  // ---- collecting the groups

  ghost predicate Collected(clock: Clock, nodes: seq<Node>, groups: map<Key, Group>, n: nat)
    requires n <= |nodes|
  {
    forall k :: if k in groups then groups[k] == GroupOf(clock, nodes, k, n) && groups[k].count > 0
                else GroupOf(clock, nodes, k, n).count == 0
  }

  lemma {:induction false} EmptyGroup(clock: Clock, nodes: seq<Node>, k: Key, n: nat)
    requires n <= |nodes|
    ensures GroupOf(clock, nodes, k, n).count == 0 ==> GroupOf(clock, nodes, k, n) == Group(k, 0, 0, 0, [])
  {
    if n > 0 {
      EmptyGroup(clock, nodes, k, n - 1);
    }
  }

  method CollectGroups(clock: Clock, nodes: seq<Node>) returns (groups: map<Key, Group>)
    requires nodes != []
    ensures Collected(clock, nodes, groups, |nodes|)
  {
    groups := map[];
    var i := 1;
    assert forall k :: !InGroup(clock, nodes, 0, k);
    while i < |nodes|
      invariant 1 <= i <= |nodes| && Collected(clock, nodes, groups, i)
    {
      var n := nodes[i];
      if FastLeaf(clock, nodes, n) {
        var k := KeyOf(n);
        EmptyGroup(clock, nodes, k, i);
        var g := if k in groups then groups[k] else Group(k, 0, 0, 0, []);
        var d := Duration(clock, n).value;
        groups := groups[k := Group(k, g.count + 1, g.total + d, Max(g.longest, d), g.sequences + [n.start.sequence])];
      }
      i := i + 1;
    }
  }

  // ---- the selection

  function Numbers(s: seq<nat>): set<nat> {
    set n | n in s
  }

  ghost function SequencesOf(selected: seq<Group>): set<nat> {
    if selected == [] then {} else SequencesOf(selected[..|selected| - 1]) + Numbers(selected[|selected| - 1].sequences)
  }

  /** All fast leaves of the tree with that parent and name. */
  function Whole(clock: Clock, nodes: seq<Node>, k: Key): (g: Group)
    ensures g.key == k && g.count == |g.sequences|
  {
    GroupOf(clock, nodes, k, |nodes|)
  }

  predicate Large(g: Group) {
    g.count >= MIN_REPEATS
  }

  /** The group is chosen, or eight others come before it. */
  ghost predicate Considered(selected: seq<Group>, g: Group) {
    g in selected || (|selected| == MAX_GROUPS && forall i :: 0 <= i < |selected| ==> Before(selected[i], g))
  }

  /** At most eight groups of at least three, in order, and none that would come before one of them is left out. */
  ghost predicate Selection(clock: Clock, nodes: seq<Node>, selected: seq<Group>) {
    && |selected| <= MAX_GROUPS && Ordered(selected) && DistinctKeys(selected)
    && (forall g :: g in selected ==> Large(g) && g == Whole(clock, nodes, g.key))
    && (forall k :: Large(Whole(clock, nodes, k)) ==> Considered(selected, Whole(clock, nodes, k)))
  }

  /** The groups that are large enough, in the order in which the map gives them. */
  method LargeGroups(groups: map<Key, Group>) returns (large: seq<Group>)
    requires forall k :: k in groups ==> groups[k].key == k
    ensures DistinctKeys(large)
    ensures forall x :: x in large <==> x.key in groups && groups[x.key] == x && Large(x)
  {
    large := [];
    var todo := groups.Keys;
    while todo != {}
      invariant todo <= groups.Keys && DistinctKeys(large)
      invariant forall x :: x in large <==> x.key in groups && x.key !in todo && groups[x.key] == x && Large(x)
      decreases |todo|
    {
      var k :| k in todo;
      todo := todo - {k};
      if Large(groups[k]) {
        assert forall i :: 0 <= i < |large| ==> large[i] in large;
        large := large + [groups[k]];
      }
    }
  }

  lemma NotBeforeItself(g: Group)
    ensures !Before(g, g)
  {
    BelowIsIrreflexive(g.key.name);
  }

  lemma OrderedIsDistinct(clock: Clock, nodes: seq<Node>, s: seq<Group>)
    requires Ordered(s) && forall x :: x in s ==> x == Whole(clock, nodes, x.key)
    ensures DistinctKeys(s)
  {
    hide Whole, Before;
    forall i, j | 0 <= i < j < |s| ensures s[i].key != s[j].key {
      assert s[i] in s && s[j] in s;
      NotBeforeItself(s[i]);
    }
  }

  /** The first eight of all large groups in order are a selection. */
  lemma FirstAreSelection(clock: Clock, nodes: seq<Node>, s: seq<Group>)
    requires Ordered(s)
    requires forall x :: x in s <==> x == Whole(clock, nodes, x.key) && Large(x)
    ensures Selection(clock, nodes, if |s| > MAX_GROUPS then s[..MAX_GROUPS] else s)
  {
    hide Whole, Before, Large;
    var selected := if |s| > MAX_GROUPS then s[..MAX_GROUPS] else s;
    OrderedIsDistinct(clock, nodes, s);
    forall g | g in selected ensures Large(g) && g == Whole(clock, nodes, g.key) {
      assert g in s;
    }
    forall k | Large(Whole(clock, nodes, k)) ensures Considered(selected, Whole(clock, nodes, k)) {
      FirstConsider(s, Whole(clock, nodes, k));
    }
  }

  lemma FirstConsider(s: seq<Group>, g: Group)
    requires Ordered(s) && g in s
    ensures Considered(if |s| > MAX_GROUPS then s[..MAX_GROUPS] else s, g)
  {
    hide Before;
    var selected := if |s| > MAX_GROUPS then s[..MAX_GROUPS] else s;
    var j :| 0 <= j < |s| && s[j] == g;
    if j < |selected| {
      assert selected[j] in selected;
    }
  }

  lemma NothingIsLarge(clock: Clock, nodes: seq<Node>, k: Key)
    ensures Large(Whole(clock, nodes, k)) ==> Whole(clock, nodes, k).count > 0
  {
  }

  method CollapsedBy(selected: seq<Group>) returns (collapsed: set<nat>)
    ensures collapsed == SequencesOf(selected)
  {
    collapsed := {};
    var i := 0;
    while i < |selected|
      invariant i <= |selected| && collapsed == SequencesOf(selected[..i])
    {
      assert selected[..i + 1][..i] == selected[..i];
      collapsed := collapsed + Numbers(selected[i].sequences);
      i := i + 1;
    }
    assert selected[..i] == selected;
  }

  /** What a finished tree collapses: the numbers of the nodes, and the groups that stand for them. */
  method RepeatedLeaves(clock: Clock, collapse: bool, t: Tree) returns (collapsed: set<nat>, selected: seq<Group>)
    requires t.nodes != []
    ensures collapsed == SequencesOf(selected)
    ensures if !collapse || t.omitted || |t.nodes| < MIN_NODES then selected == []
            else Selection(clock, t.nodes, selected)
  {
    hide Selection, Before, GroupOf, Large, Numbers;
    collapsed, selected := {}, [];
    if !collapse || t.omitted || |t.nodes| < MIN_NODES {
      return;
    }
    var groups := CollectGroups(clock, t.nodes);
    selected := LargeGroups(groups);
    selected := SortGroups(selected);
    forall x ensures x in selected <==> x == Whole(clock, t.nodes, x.key) && Large(x) {
      NothingIsLarge(clock, t.nodes, x.key);
    }
    FirstAreSelection(clock, t.nodes, selected);
    if |selected| > MAX_GROUPS {
      selected := selected[..MAX_GROUPS];
    }
    collapsed := CollapsedBy(selected);
  }

  // ---- what collapsing means for the tree

  /** The number of a fast leaf below the root. */
  ghost predicate IsLeaf(clock: Clock, nodes: seq<Node>, s: nat, k: Key, n: nat) {
    exists i :: 0 <= i < n && InGroup(clock, nodes, i, k) && nodes[i].start.sequence == s
  }

  lemma {:induction false} GroupMembers(clock: Clock, nodes: seq<Node>, k: Key, n: nat, s: nat)
    requires n <= |nodes|
    ensures s in GroupOf(clock, nodes, k, n).sequences <==> IsLeaf(clock, nodes, s, k, n)
  {
    hide InGroup;
    if n > 0 {
      GroupMembers(clock, nodes, k, n - 1, s);
      var before := GroupOf(clock, nodes, k, n - 1).sequences;
      assert IsLeaf(clock, nodes, s, k, n) <==>
        IsLeaf(clock, nodes, s, k, n - 1) || (InGroup(clock, nodes, n - 1, k) && nodes[n - 1].start.sequence == s);
    }
  }

  lemma {:induction false} CollapsedComesFrom(selected: seq<Group>, s: nat)
    ensures s in SequencesOf(selected) <==> exists i :: 0 <= i < |selected| && s in selected[i].sequences
  {
    if selected != [] {
      var init := selected[..|selected| - 1];
      CollapsedComesFrom(init, s);
      assert forall i :: 0 <= i < |init| ==> init[i] == selected[i];
    }
  }

  /** Collapsing takes only nodes nothing hangs on: whatever stays keeps its parent. */
  lemma CollapsingOrphansNobody(clock: Clock, nodes: seq<Node>, selected: seq<Group>, s: nat)
    requires Selection(clock, nodes, selected) && s in SequencesOf(selected)
    ensures !HasChild(nodes, s)
    ensures exists i: nat :: 0 < i < |nodes| && FastLeaf(clock, nodes, nodes[i]) && nodes[i].start.sequence == s
  {
    hide GroupOf, Before, Duration, Idle;
    CollapsedComesFrom(selected, s);
    var j :| 0 <= j < |selected| && s in selected[j].sequences;
    assert selected[j] in selected;
    GroupMembers(clock, nodes, selected[j].key, |nodes|, s);
    var i :| 0 <= i < |nodes| && InGroup(clock, nodes, i, selected[j].key) && nodes[i].start.sequence == s;
  }

  ghost predicate Increasing(nodes: seq<Node>) {
    forall i, j :: 0 <= i < j < |nodes| ==> nodes[i].start.sequence < nodes[j].start.sequence
  }

  function Total(selected: seq<Group>): nat {
    if selected == [] then 0 else Total(selected[..|selected| - 1]) + selected[|selected| - 1].count
  }

  ghost predicate NoRepeats(s: seq<nat>) {
    forall i, j :: 0 <= i < j < |s| ==> s[i] != s[j]
  }

  lemma {:induction false} GroupRepeatsNobody(clock: Clock, nodes: seq<Node>, k: Key, n: nat)
    requires n <= |nodes| && Increasing(nodes)
    ensures NoRepeats(GroupOf(clock, nodes, k, n).sequences)
  {
    hide InGroup;
    if n > 0 {
      GroupRepeatsNobody(clock, nodes, k, n - 1);
      var before := GroupOf(clock, nodes, k, n - 1).sequences;
      forall i | 0 <= i < |before| ensures before[i] != nodes[n - 1].start.sequence {
        GroupMembers(clock, nodes, k, n - 1, before[i]);
      }
    }
  }

  lemma {:induction false} SetSize(s: seq<nat>)
    requires NoRepeats(s)
    ensures |Numbers(s)| == |s|
  {
    if s != [] {
      var init, last := s[..|s| - 1], s[|s| - 1];
      SetSize(init);
      assert s == init + [last];
      assert Numbers(s) == Numbers(init) + {last};
      assert last !in Numbers(init);
    }
  }

  lemma GroupsAreDisjoint(clock: Clock, nodes: seq<Node>, k: Key, l: Key, s: nat)
    requires Increasing(nodes) && k != l && s in Whole(clock, nodes, k).sequences
    ensures s !in Whole(clock, nodes, l).sequences
  {
    hide GroupOf, FastLeaf;
    GroupMembers(clock, nodes, k, |nodes|, s);
    GroupMembers(clock, nodes, l, |nodes|, s);
  }

  lemma OtherGroups(clock: Clock, nodes: seq<Node>, init: seq<Group>, last: Group)
    requires Increasing(nodes) && last == Whole(clock, nodes, last.key)
    requires forall i :: 0 <= i < |init| ==> init[i] == Whole(clock, nodes, init[i].key) && init[i].key != last.key
    ensures SequencesOf(init) !! Numbers(last.sequences)
  {
    hide Whole, Increasing;
    forall s | s in SequencesOf(init) ensures s !in Numbers(last.sequences) {
      CollapsedComesFrom(init, s);
      var i :| 0 <= i < |init| && s in init[i].sequences;
      GroupsAreDisjoint(clock, nodes, init[i].key, last.key, s);
    }
  }

  /** The counts of the groups sum to the number of collapsed nodes. */
  lemma {:induction false} CountsSumToCollapsed(clock: Clock, nodes: seq<Node>, selected: seq<Group>)
    requires Increasing(nodes) && DistinctKeys(selected)
    requires forall i :: 0 <= i < |selected| ==> selected[i] == Whole(clock, nodes, selected[i].key)
    ensures |SequencesOf(selected)| == Total(selected)
  {
    if selected != [] {
      hide GroupOf, Increasing, Numbers;
      var init, last := selected[..|selected| - 1], selected[|selected| - 1];
      assert forall i :: 0 <= i < |init| ==> init[i] == selected[i];
      CountsSumToCollapsed(clock, nodes, init);
      GroupRepeatsNobody(clock, nodes, last.key, |nodes|);
      SetSize(last.sequences);
      OtherGroups(clock, nodes, init, last);
    }
  }
}
