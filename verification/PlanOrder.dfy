/** From plan to batches: nothing lost, dependencies first, no conflict inside a batch. */
module PlanOrder {
  import opened PlanGraph
  import opened PlanLayers
  import opened PlanBatches
  import opened PlanAnnotation

  function Flatten(batches: seq<seq<PlanStep>>): seq<PlanStep> {
    if batches == [] then [] else batches[0] + Flatten(batches[1..])
  }

  lemma FlattenJoins(a: seq<seq<PlanStep>>, b: seq<seq<PlanStep>>)
    ensures Flatten(a + b) == Flatten(a) + Flatten(b)
  {
    if a == [] {
      assert a + b == b;
    } else {
      assert (a + b)[1..] == a[1..] + b;
    }
  }

  lemma FlattenSingles(steps: seq<PlanStep>)
    ensures Flatten(Singles(steps)) == steps
  {
    if steps != [] {
      assert Singles(steps)[1..] == Singles(steps[1..]);
      FlattenSingles(steps[1..]);
      assert [steps[0]] + steps[1..] == steps;
    }
  }

  lemma FlattenChunk(group: seq<PlanStep>)
    ensures Flatten(Chunk(group)) == group
  {
    FlattenSingles(group);
    assert Flatten([group]) == group + Flatten([group][1..]);
  }

  function GroupsIn(steps: seq<PlanStep>): set<int> {
    set s | s in steps :: s.group
  }

  lemma WithinSplits(steps: seq<PlanStep>, a: set<int>, b: set<int>)
    requires a !! b
    ensures multiset(Within(steps, a + b)) == multiset(Within(steps, a)) + multiset(Within(steps, b))
  {
  }

  lemma WithinAll(steps: seq<PlanStep>, groups: set<int>)
    requires GroupsIn(steps) <= groups
    ensures Within(steps, groups) == steps
  {
    if steps != [] {
      assert steps[0] in steps;
      assert GroupsIn(steps[1..]) <= GroupsIn(steps);
      WithinAll(steps[1..], groups);
    }
  }

  /** All steps carry a group number, as after `annotate_steps`. */
  ghost predicate AllGrouped(steps: seq<PlanStep>) {
    forall s :: s in steps ==> s.group >= 0
  }

  /** Each step of a group that still has to come is in exactly one later batch. */
  lemma {:induction false} BatchesHoldTheRest(order: seq<PlanStep>, steps: seq<PlanStep>, seen: set<int>)
    requires AllGrouped(order)
    ensures multiset(Flatten(Batches(order, steps, seen))) == multiset(Within(steps, GroupsIn(order) - seen))
  {
    if order == [] {
      assert GroupsIn(order) - seen == {};
      WithinNone(steps);
    } else {
      var s, rest := order[0], order[1..];
      assert order == [s] + rest && s in order;
      assert GroupsIn(order) == {s.group} + GroupsIn(rest);
      if s.group in seen {
        assert GroupsIn(order) - seen == GroupsIn(rest) - seen;
        BatchesHoldTheRest(rest, steps, seen);
      } else {
        BatchesHoldTheRest(rest, steps, seen + {s.group});
        assert GroupsIn(order) - seen == {s.group} + (GroupsIn(rest) - (seen + {s.group}));
        WithinSplits(steps, {s.group}, GroupsIn(rest) - (seen + {s.group}));
        FlattenChunk(GroupOf(steps, s.group));
        FlattenJoins(Chunk(GroupOf(steps, s.group)), Batches(rest, steps, seen + {s.group}));
      }
    }
  }

  lemma WithinNone(steps: seq<PlanStep>)
    ensures Within(steps, {}) == []
  {
  }

  /** Every step is run exactly once. */
  lemma BatchesArePermutation(steps: seq<PlanStep>)
    requires AllGrouped(steps)
    ensures multiset(Flatten(BatchesOf(steps))) == multiset(steps)
  {
    var order := Sorted(steps);
    assert forall s :: s in order ==> s in multiset(order);
    BatchesHoldTheRest(order, order, {});
    assert GroupsIn(order) - {} == GroupsIn(order);
    WithinAll(order, GroupsIn(order));
  }

  /** `s` is one of the steps of batch `i`. */
  predicate InBatch(batches: seq<seq<PlanStep>>, i: int, s: PlanStep) {
    0 <= i < |batches| && s in batches[i]
  }

  lemma ChunkMembers(group: seq<PlanStep>)
    ensures forall i, s :: InBatch(Chunk(group), i, s) ==> s in group
    ensures forall s :: s in group ==> exists i :: InBatch(Chunk(group), i, s)
  {
    forall s | s in group
      ensures exists i :: InBatch(Chunk(group), i, s)
    {
      if DesktopCount(group) <= 1 {
        assert InBatch(Chunk(group), 0, s);
      } else {
        var i :| 0 <= i < |group| && group[i] == s;
        assert InBatch(Chunk(group), i, s);
      }
    }
  }

  /** Batches only hold steps of groups still to come. */
  lemma {:induction false} BatchMembers(order: seq<PlanStep>, steps: seq<PlanStep>, seen: set<int>, i: int, s: PlanStep)
    requires AllGrouped(order) && InBatch(Batches(order, steps, seen), i, s)
    ensures s in steps && s.group !in seen
  {
    var head, rest := order[0], order[1..];
    assert head in order;
    if head.group in seen {
      BatchMembers(rest, steps, seen, i, s);
    } else {
      var chunk := Chunk(GroupOf(steps, head.group));
      ChunkMembers(GroupOf(steps, head.group));
      if i < |chunk| {
        assert InBatch(chunk, i, s);
      } else {
        BatchMembers(rest, steps, seen + {head.group}, i - |chunk|, s);
      }
    }
  }

  /** A batch never mixes groups. */
  lemma {:induction false} BatchHasOneGroup(order: seq<PlanStep>, steps: seq<PlanStep>, seen: set<int>, i: int,
                                            a: PlanStep, b: PlanStep)
    requires AllGrouped(order)
    requires InBatch(Batches(order, steps, seen), i, a) && InBatch(Batches(order, steps, seen), i, b)
    ensures a.group == b.group
  {
    var head, rest := order[0], order[1..];
    assert head in order;
    if head.group in seen {
      BatchHasOneGroup(rest, steps, seen, i, a, b);
    } else {
      var chunk := Chunk(GroupOf(steps, head.group));
      ChunkMembers(GroupOf(steps, head.group));
      if i < |chunk| {
        assert InBatch(chunk, i, a) && InBatch(chunk, i, b);
      } else {
        BatchHasOneGroup(rest, steps, seen + {head.group}, i - |chunk|, a, b);
      }
    }
  }

  /** Some step of group `g` comes before every step of group `h`. */
  ghost predicate StartsBefore(order: seq<PlanStep>, g: int, h: int) {
    forall p :: 0 <= p < |order| && order[p].group == h ==>
      exists q :: 0 <= q < p && order[q].group == g
  }

  lemma StartsBeforeTail(order: seq<PlanStep>, g: int, h: int)
    requires order != [] && StartsBefore(order, g, h) && order[0].group != g
    ensures StartsBefore(order[1..], g, h)
  {
    forall p | 0 <= p < |order[1..]| && order[1..][p].group == h
      ensures exists q :: 0 <= q < p && order[1..][q].group == g
    {
      assert order[p + 1].group == h;
      var q :| 0 <= q < p + 1 && order[q].group == g;
      assert order[1..][q - 1].group == g;
    }
  }

  lemma NotInChunk(steps: seq<PlanStep>, g: int, j: int, b: PlanStep)
    requires b.group != g
    ensures !InBatch(Chunk(GroupOf(steps, g)), j, b)
  {
    ChunkMembers(GroupOf(steps, g));
  }

  lemma BatchesUnfold(order: seq<PlanStep>, steps: seq<PlanStep>, seen: set<int>)
    requires AllGrouped(order) && order != []
    ensures var head, rest := order[0], order[1..];
            Batches(order, steps, seen) ==
            if head.group in seen then Batches(rest, steps, seen)
            else Chunk(GroupOf(steps, head.group)) + Batches(rest, steps, seen + {head.group})
  {
    assert order[0] in order;
  }

  /** The group that starts first has all its batches first. */
  lemma {:induction false} FirstStartedRunsFirst(order: seq<PlanStep>, steps: seq<PlanStep>, seen: set<int>,
                                                 i: int, a: PlanStep, j: int, b: PlanStep)
    requires AllGrouped(order)
    requires InBatch(Batches(order, steps, seen), i, a) && InBatch(Batches(order, steps, seen), j, b)
    requires a.group != b.group && StartsBefore(order, a.group, b.group)
    ensures i < j
  {
    var head, rest := order[0], order[1..];
    assert head in order && head.group != b.group && AllGrouped(rest);
    BatchesUnfold(order, steps, seen);
    BatchMembers(order, steps, seen, i, a);
    hide Batches, StartsBefore, GroupOf, Chunk, AllGrouped;
    if head.group in seen {
      StartsBeforeTail(order, a.group, b.group);
      FirstStartedRunsFirst(rest, steps, seen, i, a, j, b);
    } else {
      var chunk := Chunk(GroupOf(steps, head.group));
      NotInChunk(steps, head.group, j, b);
      if i >= |chunk| {
        BatchMembers(rest, steps, seen + {head.group}, i - |chunk|, a);
        StartsBeforeTail(order, a.group, b.group);
        FirstStartedRunsFirst(rest, steps, seen + {head.group}, i - |chunk|, a, j - |chunk|, b);
      }
    }
  }

  // ---------- the shared desktop ----------

  /** At most one of these steps uses the desktop. */
  predicate OneDesktopUser(batch: seq<PlanStep>) {
    forall i, j :: 0 <= i < j < |batch| ==> !(UsesDesktop(batch[i]) && UsesDesktop(batch[j]))
  }

  lemma {:induction false} UsersAreCounted(steps: seq<PlanStep>, i: nat)
    requires i < |steps| && UsesDesktop(steps[i])
    ensures DesktopCount(steps) >= 1
  {
    if i > 0 {
      UsersAreCounted(steps[1..], i - 1);
    }
  }

  lemma {:induction false} TwoUsersAreCounted(steps: seq<PlanStep>, i: nat, j: nat)
    requires i < j < |steps| && UsesDesktop(steps[i]) && UsesDesktop(steps[j])
    ensures DesktopCount(steps) >= 2
  {
    if i > 0 {
      TwoUsersAreCounted(steps[1..], i - 1, j - 1);
    } else {
      UsersAreCounted(steps[1..], j - 1);
    }
  }

  lemma ChunkSharesNoDesktop(group: seq<PlanStep>, b: nat)
    requires b < |Chunk(group)|
    ensures OneDesktopUser(Chunk(group)[b])
  {
    hide UsesDesktop;
    if DesktopCount(group) <= 1 {
      forall i, j | 0 <= i < j < |group| && UsesDesktop(group[i]) && UsesDesktop(group[j])
        ensures false
      {
        TwoUsersAreCounted(group, i, j);
      }
    }
  }

  lemma {:induction false} BatchesShareNoDesktop(order: seq<PlanStep>, steps: seq<PlanStep>, seen: set<int>, b: nat)
    requires b < |Batches(order, steps, seen)|
    ensures OneDesktopUser(Batches(order, steps, seen)[b])
    decreases |order|
  {
    hide UsesDesktop, Chunk, GroupOf, OneDesktopUser;
    var s, rest := order[0], order[1..];
    if s.group < 0 {
      if b == 0 {
        AloneIsOne(s);
      } else {
        BatchesShareNoDesktop(rest, steps, seen, b - 1);
      }
    } else if s.group in seen {
      BatchesShareNoDesktop(rest, steps, seen, b);
    } else {
      var chunk := Chunk(GroupOf(steps, s.group));
      if b < |chunk| {
        ChunkSharesNoDesktop(GroupOf(steps, s.group), b);
      } else {
        BatchesShareNoDesktop(rest, steps, seen + {s.group}, b - |chunk|);
      }
    }
  }

  lemma AloneIsOne(s: PlanStep)
    ensures OneDesktopUser([s])
  {
  }

  /** No executed batch holds two steps that use the desktop, by their resources or by their text. */
  lemma DesktopIsNeverShared(plan: seq<PlanStep>, b: nat)
    requires b < |BatchesOf(plan)|
    ensures OneDesktopUser(BatchesOf(plan)[b])
  {
    BatchesShareNoDesktop(Sorted(plan), Sorted(plan), {}, b);
  }

  lemma SameStepsDistinct(a: seq<PlanStep>, b: seq<PlanStep>)
    requires multiset(a) == multiset(b) && DistinctIds(a)
    ensures DistinctIds(b)
  {
    forall i, j | 0 <= i < j < |b|
      ensures b[i].id != b[j].id
    {
      if b[i] == b[j] {
        assert b == b[..i] + [b[i]] + b[i + 1..j] + [b[j]] + b[j + 1..];
        assert multiset(b)[b[i]] >= 2;
        AtMostOnce(a, b[i]);
      } else {
        assert b[i] in multiset(b) && b[j] in multiset(b);
        assert b[i] in a && b[j] in a;
      }
    }
  }

  lemma {:induction false} AtMostOnce(a: seq<PlanStep>, s: PlanStep)
    requires DistinctIds(a)
    ensures multiset(a)[s] <= 1
  {
    if a != [] {
      AtMostOnce(a[1..], s);
      assert a == [a[0]] + a[1..];
    }
  }

  // ---------- the annotated plan ----------

  function IdsOf(steps: seq<PlanStep>): set<int> {
    set s | s in steps :: s.id
  }

  lemma RemainingAt(steps: seq<PlanStep>, i: nat)
    requires DistinctIds(steps) && i < |steps|
    ensures steps[i].id in RemainingOf(DagOf(steps))
    ensures RemainingOf(DagOf(steps))[steps[i].id] == NodeOf(steps, i).dependsOn
  {
    RemainingOfUnique(DagOf(steps), i);
  }

  lemma RemainingIds(steps: seq<PlanStep>)
    requires DistinctIds(steps)
    ensures RemainingOf(DagOf(steps)).Keys == IdsOf(steps)
  {
    var remaining := RemainingOf(DagOf(steps));
    forall id | id in IdsOf(steps)
      ensures id in remaining
    {
      var i :| 0 <= i < |steps| && steps[i].id == id;
      RemainingAt(steps, i);
    }
    forall id | id in remaining
      ensures id in IdsOf(steps)
    {
      RemainingKeys(DagOf(steps), id);
      var i :| 0 <= i < |steps| && DagOf(steps)[i].id == id;
      assert steps[i] in steps;
    }
  }

  lemma AnnotatedAt(steps: seq<PlanStep>, i: nat)
    requires DistinctIds(steps) && i < |steps|
    ensures var s, plan, groups := steps[i], Annotated(steps), Layers(RemainingOf(DagOf(steps)), 0);
            && s.id in groups
            && plan[i] == s.(dependsOn := NodeOf(steps, i).dependsOn, declaredReads := s.Reads(),
                             declaredWrites := s.Writes(), group := groups[s.id])
  {
    RemainingAt(steps, i);
    NodeForStep(steps, i);
  }

  /** The annotated plan keeps ids and resources, and every step gets a group. */
  lemma AnnotatedKeeps(steps: seq<PlanStep>)
    requires DistinctIds(steps)
    ensures DistinctIds(Annotated(steps)) && AllGrouped(Annotated(steps))
    ensures IsSorted(steps) ==> IsSorted(Annotated(steps))
    ensures forall i :: 0 <= i < |steps| ==>
              && Annotated(steps)[i].id == steps[i].id
              && Annotated(steps)[i].Reads() == steps[i].Reads()
              && Annotated(steps)[i].Writes() == steps[i].Writes()
  {
    forall i | 0 <= i < |steps|
      ensures Annotated(steps)[i].id == steps[i].id && Annotated(steps)[i].group >= 0
      ensures Annotated(steps)[i].Reads() == steps[i].Reads()
      ensures Annotated(steps)[i].Writes() == steps[i].Writes()
    {
      AnnotatedAt(steps, i);
    }
  }

  /** Steps that conflict never share a group, whatever else the plan declares. */
  lemma ConflictsAreSeparated(steps: seq<PlanStep>, i: nat, j: nat)
    requires DistinctIds(steps) && j < i < |steps| && Conflict(steps[i], steps[j])
    ensures Annotated(steps)[i].group != Annotated(steps)[j].group
  {
    AnnotatedAt(steps, i);
    AnnotatedAt(steps, j);
    RemainingAt(steps, i);
    RemainingAt(steps, j);
    assert steps[j].id in Blockers(steps, i);
    DependencyNeverShares(RemainingOf(DagOf(steps)), 0, steps[j].id, steps[i].id);
  }

  lemma BatchStepIsInPlan(plan: seq<PlanStep>, b: int, x: PlanStep)
    requires AllGrouped(plan) && InBatch(BatchesOf(plan), b, x)
    ensures x in plan && AllGrouped(Sorted(plan))
  {
    var order := Sorted(plan);
    assert forall s :: s in order ==> s in multiset(order);
    assert forall s :: s in multiset(plan) ==> s in plan;
    BatchMembers(order, order, {}, b, x);
  }

  /** No two steps that could interfere are ever in one batch: no cycle and no plan order spoils it. */
  lemma NoConflictInABatch(steps: seq<PlanStep>, b: int, x: PlanStep, y: PlanStep)
    requires DistinctIds(steps)
    requires InBatch(BatchesOf(Annotated(steps)), b, x) && InBatch(BatchesOf(Annotated(steps)), b, y)
    ensures x == y || !Conflict(x, y)
  {
    var plan := Annotated(steps);
    AnnotatedKeeps(steps);
    BatchStepIsInPlan(plan, b, x);
    BatchStepIsInPlan(plan, b, y);
    BatchHasOneGroup(Sorted(plan), Sorted(plan), {}, b, x, y);
    if x != y && Conflict(x, y) {
      ConflictingStepsHaveTwoGroups(steps, x, y);
    }
  }

  lemma ConflictingStepsHaveTwoGroups(steps: seq<PlanStep>, x: PlanStep, y: PlanStep)
    requires DistinctIds(steps) && x in Annotated(steps) && y in Annotated(steps)
    requires x != y && Conflict(x, y)
    ensures x.group != y.group
  {
    var plan := Annotated(steps);
    var i :| 0 <= i < |plan| && plan[i] == x;
    var j :| 0 <= j < |plan| && plan[j] == y;
    ConflictIsSymmetric(x, y);
    ConflictCarriesOver(steps, i, j);
    ConflictCarriesOver(steps, j, i);
    ConflictsAreSeparated(steps, if i < j then j else i, if i < j then i else j);
  }

  lemma ConflictCarriesOver(steps: seq<PlanStep>, i: nat, j: nat)
    requires DistinctIds(steps) && i < |steps| && j < |steps|
    requires Conflict(Annotated(steps)[i], Annotated(steps)[j])
    ensures Conflict(steps[i], steps[j])
  {
    AnnotatedKeeps(steps);
  }

  /** Declared dependencies and output references name smaller, own or absent ids. */
  ghost predicate RefersBack(steps: seq<PlanStep>) {
    forall s, d :: s in steps && d in s.dependsOn + s.refs ==> d <= s.id || d !in IdsOf(steps)
  }

  lemma PlanPointsBack(steps: seq<PlanStep>)
    requires DistinctIds(steps) && IsSorted(steps) && RefersBack(steps)
    ensures PointsBack(RemainingOf(DagOf(steps)), IdsOf(steps))
  {
    var remaining := RemainingOf(DagOf(steps));
    RemainingIds(steps);
    forall n, d | n in remaining && d in remaining[n]
      ensures d <= n || d !in IdsOf(steps)
    {
      var i :| 0 <= i < |steps| && steps[i].id == n;
      RemainingAt(steps, i);
      assert steps[i] in steps;
      if d in Blockers(steps, i) {
        var j :| 0 <= j < i && steps[j].id == d;
      }
    }
  }

  lemma SortedHas(steps: seq<PlanStep>, s: PlanStep)
    ensures s in Sorted(steps) <==> s in steps
  {
    assert s in Sorted(steps) <==> s in multiset(Sorted(steps));
    assert s in steps <==> s in multiset(steps);
  }

  /** Among sorted steps a smaller id comes first. */
  lemma SmallerComesFirst(order: seq<PlanStep>, p: nat, x: PlanStep) returns (q: nat)
    requires IsSorted(order) && p < |order| && x in order && x.id < order[p].id
    ensures q < p && order[q] == x
  {
    q :| 0 <= q < |order| && order[q] == x;
  }

  /** Sorting a plan keeps which group starts first. */
  lemma StartsBeforeInOrder(steps: seq<PlanStep>, g: int, h: int)
    requires forall y :: y in steps && y.group == h ==> exists x :: x in steps && x.id < y.id && x.group == g
    ensures StartsBefore(Sorted(steps), g, h)
  {
    hide Sorted, IsSorted;
    var order := Sorted(steps);
    SortedIsSorted(steps);
    forall p | 0 <= p < |order| && order[p].group == h
      ensures exists q :: 0 <= q < p && order[q].group == g
    {
      SortedHas(steps, order[p]);
      var x :| x in steps && x.id < order[p].id && x.group == g;
      SortedHas(steps, x);
      var q := SmallerComesFirst(order, p, x);
    }
  }

  /**
   End to end: in a full plan in id order that refers back, every dependency present in the plan is
   in a strictly earlier batch, including the dependencies that conflicts added.
   */
  lemma DependenciesRunEarlier(steps: seq<PlanStep>, i: int, a: PlanStep, j: int, b: PlanStep)
    requires DistinctIds(steps) && IsSorted(steps) && RefersBack(steps)
    requires InBatch(BatchesOf(Annotated(steps)), i, a) && InBatch(BatchesOf(Annotated(steps)), j, b)
    requires a.id in b.dependsOn && a.id < b.id
    ensures i < j
  {
    var plan, remaining := Annotated(steps), RemainingOf(DagOf(steps));
    var order := Sorted(plan);
    AnnotatedKeeps(steps);
    RemainingIds(steps);
    PlanPointsBack(steps);
    assert forall s :: s in order ==> s in multiset(order);
    BatchMembers(order, order, {}, i, a);
    BatchMembers(order, order, {}, j, b);
    assert a in multiset(plan) && b in multiset(plan);
    GroupIsNumber(steps, a);
    GroupIsNumber(steps, b);
    SmallerDependencyIsEarlier(remaining, 0, a.id, b.id);
    forall y | y in plan && y.group == b.group
      ensures exists x :: x in plan && x.id < y.id && x.group == a.group
    {
      GroupIsNumber(steps, y);
      var x := DependencyGroupStartsFirst(remaining, IdsOf(steps), 0, a.id, b.id, y.id);
      var k :| 0 <= k < |steps| && steps[k].id == x;
      GroupIsNumber(steps, plan[k]);
    }
    StartsBeforeInOrder(plan, a.group, b.group);
    FirstStartedRunsFirst(order, order, {}, i, a, j, b);
  }

  lemma GroupIsNumber(steps: seq<PlanStep>, s: PlanStep)
    requires DistinctIds(steps) && s in Annotated(steps)
    ensures s.id in RemainingOf(DagOf(steps)) && s.group == Layers(RemainingOf(DagOf(steps)), 0)[s.id]
    ensures s.dependsOn == RemainingOf(DagOf(steps))[s.id]
  {
    var i :| 0 <= i < |steps| && Annotated(steps)[i] == s;
    AnnotatedAt(steps, i);
    RemainingAt(steps, i);
  }
}
