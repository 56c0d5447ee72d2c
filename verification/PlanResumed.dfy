/**
 A resumed plan keeps its old group numbers but drops the completed steps before it is grouped into
 batches. When that keeps dependencies in order, exactly, and a plan for which it does not.
 */
module PlanResumed {
  import opened PlanGraph
  import opened PlanLayers
  import opened PlanBatches
  import opened PlanAnnotation
  import opened PlanOrder

  /** `[step for step in steps if step.step_id not in completed_ids]`. */
  function Pending(plan: seq<PlanStep>, completed: set<int>): (r: seq<PlanStep>)
    ensures forall s :: s in r <==> s in plan && s.id !in completed
  {
    if plan == [] then []
    else if plan[0].id in completed then Pending(plan[1..], completed)
    else [plan[0]] + Pending(plan[1..], completed)
  }

  /** The first member of group `g` comes before every member of group `h`. */
  predicate FirstMemberLeads(pending: seq<PlanStep>, g: int, h: int) {
    exists x :: x in pending && x.group == g && forall y :: y in pending && y.group == h ==> x.id < y.id
  }

  ghost predicate RunsBefore(pending: seq<PlanStep>, a: PlanStep, b: PlanStep) {
    forall i, j :: InBatch(BatchesOf(pending), i, a) && InBatch(BatchesOf(pending), j, b) ==> i < j
  }

  lemma MemberOfFlat(batches: seq<seq<PlanStep>>, s: PlanStep) returns (i: int)
    requires s in Flatten(batches)
    ensures InBatch(batches, i, s)
  {
    if s in batches[0] {
      i := 0;
    } else {
      i := MemberOfFlat(batches[1..], s);
      i := i + 1;
    }
  }

  lemma HasABatch(plan: seq<PlanStep>, s: PlanStep) returns (i: int)
    requires AllGrouped(plan) && s in plan
    ensures InBatch(BatchesOf(plan), i, s)
  {
    BatchesArePermutation(plan);
    assert s in multiset(Flatten(BatchesOf(plan)));
    i := MemberOfFlat(BatchesOf(plan), s);
  }

  lemma LeadingGroupRunsFirst(pending: seq<PlanStep>, a: PlanStep, b: PlanStep)
    requires AllGrouped(pending) && a.group != b.group
    requires FirstMemberLeads(pending, a.group, b.group)
    ensures RunsBefore(pending, a, b)
  {
    StartsBeforeInOrder(pending, a.group, b.group);
    forall i, j | InBatch(BatchesOf(pending), i, a) && InBatch(BatchesOf(pending), j, b)
      ensures i < j
    {
      BatchStepIsInPlan(pending, i, a);
      FirstStartedRunsFirst(Sorted(pending), Sorted(pending), {}, i, a, j, b);
    }
  }

  /** The earliest pending member of two groups leads the other group. */
  lemma EarliestLeads(pending: seq<PlanStep>, p: nat, h: int)
    requires IsSorted(pending) && DistinctIds(pending) && p < |pending| && pending[p].group != h
    requires forall q :: 0 <= q < p ==> pending[q].group != h
    ensures FirstMemberLeads(pending, pending[p].group, h)
  {
    var x := pending[p];
    forall y | y in pending && y.group == h
      ensures x.id < y.id
    {
      var q :| 0 <= q < |pending| && pending[q] == y;
    }
    assert x in pending;
  }

  lemma OneGroupLeads(pending: seq<PlanStep>, g: int, h: int)
    requires IsSorted(pending) && DistinctIds(pending) && g != h
    requires exists x :: x in pending && x.group == g
    ensures FirstMemberLeads(pending, g, h) || FirstMemberLeads(pending, h, g)
  {
    var p := FirstOfEither(pending, g, h);
    EarliestLeads(pending, p, if pending[p].group == g then h else g);
  }

  lemma FirstOfEither(pending: seq<PlanStep>, g: int, h: int) returns (p: nat)
    requires exists x :: x in pending && x.group == g
    ensures p < |pending| && (pending[p].group == g || pending[p].group == h)
    ensures forall q :: 0 <= q < p ==> pending[q].group != g && pending[q].group != h
  {
    p := 0;
    while p < |pending| && pending[p].group != g && pending[p].group != h
      invariant p <= |pending|
      invariant forall q :: 0 <= q < p ==> pending[q].group != g && pending[q].group != h
    {
      p := p + 1;
    }
  }

  /** A pending step runs before another one's group exactly when its group's first member leads. */
  lemma ResumedOrderExactly(pending: seq<PlanStep>, a: PlanStep, b: PlanStep)
    requires AllGrouped(pending) && IsSorted(pending) && DistinctIds(pending)
    requires a in pending && b in pending && a.group != b.group
    ensures RunsBefore(pending, a, b) <==> FirstMemberLeads(pending, a.group, b.group)
  {
    OneGroupLeads(pending, a.group, b.group);
    if FirstMemberLeads(pending, a.group, b.group) {
      LeadingGroupRunsFirst(pending, a, b);
    } else {
      LeadingGroupRunsFirst(pending, b, a);
      var i := HasABatch(pending, a);
      var j := HasABatch(pending, b);
    }
  }

  // ---------- a plan whose resumption runs a step before its dependency ----------

  function Plain(id: int, dependsOn: set<int>): PlanStep {
    PlanStep(id, dependsOn, {}, {}, {}, {}, {}, false, -1)
  }

  /** Step 2 needs step 1, step 4 needs step 3. */
  function TwoChains(): seq<PlanStep> {
    [Plain(1, {}), Plain(2, {1}), Plain(3, {}), Plain(4, {3})]
  }

  lemma TwoChainsRefersBack()
    ensures DistinctIds(TwoChains()) && IsSorted(TwoChains()) && RefersBack(TwoChains())
  {
    var steps := TwoChains();
    forall s, d | s in steps && d in s.dependsOn + s.refs
      ensures d <= s.id
    {
      var i :| 0 <= i < 4 && steps[i] == s;
    }
  }

  lemma PlainNode(steps: seq<PlanStep>, i: nat)
    requires i < |steps| && forall j :: 0 <= j <= i ==> steps[j] == Plain(steps[j].id, steps[j].dependsOn)
    ensures NodeOf(steps, i) == DagNode(steps[i].id, steps[i].dependsOn, {}, {})
  {
    assert forall j :: 0 <= j < i ==> !Conflict(steps[i], steps[j]);
    assert Blockers(steps, i) == {};
  }

  lemma TwoChainsRemaining()
    ensures RemainingOf(DagOf(TwoChains())) == map[1 := {}, 2 := {1}, 3 := {}, 4 := {3}]
  {
    var dag := DagOf(TwoChains());
    PlainNode(TwoChains(), 0);
    PlainNode(TwoChains(), 1);
    PlainNode(TwoChains(), 2);
    PlainNode(TwoChains(), 3);
    assert dag[..3][..2][..1][..0] == [];
    assert RemainingOf(dag[..3][..2][..1]) == map[1 := {}];
    assert RemainingOf(dag[..3][..2]) == map[1 := {}, 2 := {1}];
    assert RemainingOf(dag[..3]) == map[1 := {}, 2 := {1}, 3 := {}];
  }

  lemma TwoChainsPeel()
    ensures var remaining: Remaining := map[1 := {}, 2 := {1}, 3 := {}, 4 := {3}];
            Ready(remaining) == {1, 3} && Peel(remaining) == map[2 := {}, 4 := {}]
  {
    var remaining: Remaining := map[1 := {}, 2 := {1}, 3 := {}, 4 := {3}];
    assert Ready(remaining) == {1, 3};
    assert Peel(remaining).Keys == {2, 4};
    assert {1} - Ready(remaining) == {} && {3} - Ready(remaining) == {};
  }

  lemma LastRoundLayers()
    ensures Layers(map[2 := {}, 4 := {}], 1) == map[2 := 1, 4 := 1]
  {
    var peeled: Remaining := map[2 := {}, 4 := {}];
    assert Ready(peeled) == {2, 4};
    assert Peel(peeled) == map[];
  }

  lemma TwoChainsLayers()
    ensures Layers(map[1 := {}, 2 := {1}, 3 := {}, 4 := {3}], 0) == map[1 := 0, 2 := 1, 3 := 0, 4 := 1]
  {
    TwoChainsPeel();
    LastRoundLayers();
  }

  lemma TwoChainsGroups()
    ensures var plan := Annotated(TwoChains());
            && plan[1].id == 2 && plan[1].group == 1
            && plan[2].id == 3 && plan[2].group == 0
            && plan[3].id == 4 && plan[3].group == 1 && 3 in plan[3].dependsOn
  {
    TwoChainsRefersBack();
    TwoChainsRemaining();
    TwoChainsLayers();
    AnnotatedAt(TwoChains(), 1);
    AnnotatedAt(TwoChains(), 2);
    AnnotatedAt(TwoChains(), 3);
  }

  lemma PendingDropsFirst(plan: seq<PlanStep>, completed: set<int>)
    requires plan != [] && plan[0].id in completed
    requires forall i :: 1 <= i < |plan| ==> plan[i].id !in completed
    ensures Pending(plan, completed) == plan[1..]
  {
    PendingKeepsAll(plan[1..], completed);
  }

  lemma PendingKeepsAll(plan: seq<PlanStep>, completed: set<int>)
    requires forall i :: 0 <= i < |plan| ==> plan[i].id !in completed
    ensures Pending(plan, completed) == plan
  {
    if plan != [] {
      PendingKeepsAll(plan[1..], completed);
      assert [plan[0]] + plan[1..] == plan;
    }
  }

  lemma ThirdRunsBeforeSecond(pending: seq<PlanStep>)
    requires |pending| == 3 && AllGrouped(pending)
    requires pending[0].id == 2 && pending[1].id == 3 && pending[2].id == 4
    requires pending[0].group == 1 && pending[1].group == 0 && pending[2].group == 1
    ensures !RunsBefore(pending, pending[1], pending[2])
  {
    assert pending[0] in pending && pending[1] in pending && pending[2] in pending;
    assert forall x :: x in pending ==> 2 <= x.id;
    ResumedOrderExactly(pending, pending[1], pending[2]);
  }

  /** Resumed after step 1 alone succeeded, step 4 does not wait for the step 3 it depends on. */
  lemma ResumedPlanCanRunEarly()
    ensures DistinctIds(TwoChains()) && IsSorted(TwoChains()) && RefersBack(TwoChains())
    ensures var pending := Pending(Annotated(TwoChains()), {1});
            exists a, b :: a in pending && b in pending && a.id in b.dependsOn && a.id < b.id
                           && !RunsBefore(pending, a, b)
  {
    var plan := Annotated(TwoChains());
    TwoChainsRefersBack();
    TwoChainsGroups();
    AnnotatedKeeps(TwoChains());
    PendingDropsFirst(plan, {1});
    var pending := plan[1..];
    forall s | s in pending
      ensures s.group >= 0
    {
      assert s in plan;
    }
    ThirdRunsBeforeSecond(pending);
    assert pending[1] in pending && pending[2] in pending;
  }
}
