/** Cutting an execution plan into ordered attribute values (trace/spans.go, planParts). */
module PlanParts {
  import opened Utf8

  const MAX_PART_BYTES: nat := 255
  const MIN_STEP_BYTES: nat := 160
  const NEWLINE: byte := 10

  /** The longest valid prefix of at most `k` bytes. */
  function LongestValid(s: Bytes, k: nat): (end: nat)
    requires k <= |s|
    ensures end <= k && Valid(s[..end])
    ensures forall j :: end < j <= k ==> !Valid(s[..j])
  {
    if k == 0 || Valid(s[..k]) then k else LongestValid(s, k - 1)
  }

  /** One more than the position of the last newline, 0 if there is none. */
  function AfterLastNewline(s: Bytes): (end: nat)
    ensures end <= |s|
    ensures end > 0 ==> s[end - 1] == NEWLINE
    ensures forall j :: end <= j < |s| ==> s[j] != NEWLINE
  {
    if s == [] then 0
    else if s[|s| - 1] == NEWLINE then |s|
    else AfterLastNewline(s[..|s| - 1])
  }

  /** Where the next part ends: a whole number of runes, broken after a complete plan step when one is long enough. */
  function Cut(plan: Bytes): (end: nat)
    ensures end <= |plan| && end <= MAX_PART_BYTES
  {
    var end := LongestValid(plan, if |plan| < MAX_PART_BYTES then |plan| else MAX_PART_BYTES);
    var step := AfterLastNewline(plan[..end]);
    if end < |plan| && step > MIN_STEP_BYTES then step else end
  }

  lemma WholeOrWide(plan: Bytes, k: nat)
    requires Valid(plan) && k == if |plan| < MAX_PART_BYTES then |plan| else MAX_PART_BYTES
    ensures LongestValid(plan, k) == |plan| || LongestValid(plan, k) > MIN_STEP_BYTES
  {
    if k == |plan| {
      assert plan[..k] == plan;
    } else {
      var near := BoundaryNear(plan, k);
    }
  }

  lemma StepIsBoundary(s: Bytes)
    requires Valid(s)
    ensures Valid(s[..AfterLastNewline(s)])
  {
    if AfterLastNewline(s) > 0 {
      BoundaryAfterAscii(s, AfterLastNewline(s));
    }
  }

  lemma CutIsBoundary(plan: Bytes)
    requires plan != []
    ensures Valid(plan[..Cut(plan)])
    ensures Valid(plan) ==> Cut(plan) == |plan| || Cut(plan) > MIN_STEP_BYTES
    ensures Valid(plan[Cut(plan)..]) <==> Valid(plan)
  {
    hide Valid, AfterLastNewline, LongestValid, Cut;
    var cut := Cut(plan);
    CutIsValid(plan);
    assert plan[..cut] + plan[cut..] == plan;
    ValidAppend(plan[..cut], plan[cut..]);
    if Valid(plan) {
      CutAdvances(plan);
    }
  }

  lemma CutIsValid(plan: Bytes)
    ensures Valid(plan[..Cut(plan)])
  {
    hide Valid, AfterLastNewline, LongestValid;
    var end := LongestValid(plan, if |plan| < MAX_PART_BYTES then |plan| else MAX_PART_BYTES);
    StepIsBoundary(plan[..end]);
    assert Cut(plan) != end ==> plan[..end][..Cut(plan)] == plan[..Cut(plan)];
  }

  lemma CutAdvances(plan: Bytes)
    requires Valid(plan)
    ensures Cut(plan) == |plan| || Cut(plan) > MIN_STEP_BYTES
  {
    hide Valid, AfterLastNewline, LongestValid;
    WholeOrWide(plan, if |plan| < MAX_PART_BYTES then |plan| else MAX_PART_BYTES);
  }

  /** The parts of a plan, each the one `Cut` prescribes for what the parts before it leave. */
  function Parts(plan: Bytes): seq<Bytes>
    decreases |plan|
  {
    if plan == [] || Cut(plan) == 0 then [] else [plan[..Cut(plan)]] + Parts(plan[Cut(plan)..])
  }

  function Concat(parts: seq<Bytes>): Bytes {
    if parts == [] then [] else parts[0] + Concat(parts[1..])
  }

  ghost predicate GoodPart(part: Bytes, last: bool) {
    && 0 < |part| <= MAX_PART_BYTES && Valid(part)
    && (!last ==> |part| > MIN_STEP_BYTES)
  }

  lemma {:induction false} PartsConcat(plan: Bytes)
    requires Valid(plan)
    ensures Concat(Parts(plan)) == plan
    decreases |plan|
  {
    hide Valid, Cut;
    if plan != [] {
      CutIsBoundary(plan);
      PartsConcat(plan[Cut(plan)..]);
      assert Parts(plan)[1..] == Parts(plan[Cut(plan)..]);
    }
  }

  /** Each part is a positive number of whole runes, at most 255 bytes, and only the last may be shorter than a step. */
  lemma {:induction false} PartsGood(plan: Bytes, i: nat)
    requires Valid(plan) && i < |Parts(plan)|
    ensures GoodPart(Parts(plan)[i], i == |Parts(plan)| - 1)
    decreases |plan|
  {
    hide Valid, Cut;
    CutIsBoundary(plan);
    if i > 0 {
      PartsGood(plan[Cut(plan)..], i - 1);
    }
  }

  /** The inner loop: shortens the part until it ends between runes. */
  method WholeRunes(plan: Bytes, most: nat) returns (end: nat)
    requires most <= |plan|
    ensures end == LongestValid(plan, most)
  {
    hide Valid;
    end := most;
    while end > 0 && !Valid(plan[..end])
      invariant end <= most && LongestValid(plan, end) == LongestValid(plan, most)
    {
      end := end - 1;
    }
  }

  /** Where the next part ends, found as the loop finds it. */
  method FindCut(plan: Bytes) returns (end: nat)
    ensures end == Cut(plan)
  {
    hide Valid, LongestValid, AfterLastNewline;
    end := WholeRunes(plan, if |plan| < MAX_PART_BYTES then |plan| else MAX_PART_BYTES);
    if end < |plan| {
      var step := AfterLastNewline(plan[..end]);
      if step > 0 && step - 1 >= MIN_STEP_BYTES {
        end := step;
      }
    }
  }

  method PlanParts(plan: Bytes) returns (parts: seq<Bytes>)
    requires Valid(plan)
    ensures parts == Parts(plan)
  {
    hide Valid, Cut;
    parts := [];
    var rest := plan;
    while |rest| > 0
      invariant Valid(rest) && parts + Parts(rest) == Parts(plan)
      decreases |rest|
    {
      var end := FindCut(rest);
      CutIsBoundary(rest);
      assert Parts(rest) == [rest[..end]] + Parts(rest[end..]);
      parts := parts + [rest[..end]];
      rest := rest[end..];
    }
  }

  /** What is left of the plan after `n` rounds of the loop; a round that cuts nothing leaves the plan as it is. */
  function Remaining(plan: Bytes, n: nat): Bytes {
    if n == 0 || plan == [] then plan else Remaining(plan[Cut(plan)..], n - 1)
  }

  lemma {:induction false} RemainingValidity(plan: Bytes, n: nat)
    ensures Valid(Remaining(plan, n)) <==> Valid(plan)
  {
    if n > 0 && plan != [] {
      CutIsBoundary(plan);
      RemainingValidity(plan[Cut(plan)..], n - 1);
    }
  }

  lemma {:induction false} RemainingShrinks(plan: Bytes, n: nat)
    requires Valid(plan) && |plan| <= n
    ensures Remaining(plan, n) == []
  {
    if plan != [] {
      CutIsBoundary(plan);
      RemainingShrinks(plan[Cut(plan)..], n - 1);
    }
  }

  /** The loop ends exactly on valid UTF-8: on anything else it stops advancing before the plan is used up. */
  lemma HaltsExactlyOnValid(plan: Bytes)
    ensures (exists n: nat :: Remaining(plan, n) == []) <==> Valid(plan)
  {
    if Valid(plan) {
      RemainingShrinks(plan, |plan|);
    }
    forall n: nat | Remaining(plan, n) == [] ensures Valid(plan) {
      RemainingValidity(plan, n);
    }
  }
}
