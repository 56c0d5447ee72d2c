/**
 What the executed batches mean for the steps as they were planned: which steps wait for which, which
 share a batch, and that steps in one batch cannot disturb each other.
 */
module PlanDependencies {
  import opened PlanGraph
  import opened PlanBatches
  import opened PlanAnnotation
  import opened PlanOrder
  import opened PlanResumed

  // ---------- what a step waits for ----------

  /** The declared steps, those whose output it refers to, and the earlier ones it conflicts with; no others. */
  lemma DependsExactly(steps: seq<PlanStep>, i: nat, d: int)
    requires DistinctIds(steps) && i < |steps|
    ensures d in Annotated(steps)[i].dependsOn <==>
            || d in steps[i].dependsOn
            || d in steps[i].refs
            || exists j :: 0 <= j < i && steps[j].id == d && Conflict(steps[i], steps[j])
  {
    AnnotatedAt(steps, i);
  }

  /** One path is the other's or lies below it. */
  ghost predicate Contains(a: Resource, b: Resource) {
    && a.File? && b.File? && a.root == b.root && a.ups == b.ups
    && exists below: seq<string> :: b.parts == a.parts + below
  }

  /** Changing the one resource may be noticed through the other. */
  ghost predicate Touch(a: Resource, b: Resource) {
    a == b || Contains(a, b) || Contains(b, a)
  }

  /** Something the first step writes is read or written by the second. */
  ghost predicate Disturbs(a: PlanStep, b: PlanStep) {
    exists w, r :: w in a.declaredWrites + a.foundWrites
                   && r in b.declaredReads + b.foundReads + b.declaredWrites + b.foundWrites && Touch(w, r)
  }

  lemma TouchExactly(a: Resource, b: Resource)
    ensures Touch(a, b) <==> a == b || PathsOverlap(a, b)
  {
    if PathsOverlap(a, b) {
      if a.parts <= b.parts {
        assert b.parts == a.parts + b.parts[|a.parts|..];
      } else {
        assert a.parts == b.parts + a.parts[|b.parts|..];
      }
    }
  }

  lemma DisturbsMeans(a: PlanStep, b: PlanStep)
    ensures Disturbs(a, b) <==>
            || a.Writes() * (b.Reads() + b.Writes()) != {}
            || exists w, r :: w in a.Writes() && r in b.Reads() + b.Writes() && PathsOverlap(w, r)
  {
    hide Touch, PathsOverlap;
    if Disturbs(a, b) {
      var w, r :| w in a.declaredWrites + a.foundWrites
                  && r in b.declaredReads + b.foundReads + b.declaredWrites + b.foundWrites && Touch(w, r);
      TouchExactly(w, r);
      assert w in a.Writes() && r in b.Reads() + b.Writes();
      assert w == r ==> w in a.Writes() * (b.Reads() + b.Writes());
    }
    if shared :| shared in a.Writes() * (b.Reads() + b.Writes()) {
      TouchExactly(shared, shared);
    }
    if w, r :| w in a.Writes() && r in b.Reads() + b.Writes() && PathsOverlap(w, r) {
      TouchExactly(w, r);
    }
    assert a.Writes() * (b.Reads() + b.Writes()) != {} ==> exists s :: s in a.Writes() * (b.Reads() + b.Writes());
  }

  /** Steps conflict exactly when one disturbs the other or both use the desktop. */
  lemma ConflictExactly(a: PlanStep, b: PlanStep)
    ensures Conflict(a, b) <==>
            || Disturbs(a, b) || Disturbs(b, a)
            || (Desktop in a.Reads() + a.Writes() && Desktop in b.Reads() + b.Writes())
  {
    DisturbsMeans(a, b);
    DisturbsMeans(b, a);
    hide PathsOverlap, Disturbs;
    Overlaps(a.Writes(), b.Reads(), b.Writes());
    Overlaps(b.Writes(), a.Reads(), a.Writes());
    assert a.Reads() * b.Writes() == b.Writes() * a.Reads();
    assert a.Writes() * b.Writes() == b.Writes() * a.Writes();
  }

  lemma Overlaps(w: set<Resource>, a: set<Resource>, b: set<Resource>)
    ensures w * (a + b) == w * a + w * b
  {
  }

  /** In one batch nothing a step writes is read or written by another, whatever the plan looks like. */
  lemma NothingDisturbsInABatch(steps: seq<PlanStep>, b: int, x: PlanStep, y: PlanStep)
    requires DistinctIds(steps) && x != y
    requires InBatch(BatchesOf(Annotated(steps)), b, x) && InBatch(BatchesOf(Annotated(steps)), b, y)
    ensures !Disturbs(x, y)
  {
    NoConflictInABatch(steps, b, x, y);
    ConflictExactly(x, y);
  }

  // ---------- the order of the batches, in terms of the plan ----------

  /**
   A step waits for every smaller step it declares or refers to, and for every earlier one it conflicts
   with: those are in strictly earlier batches, in every full plan in id order that refers back.
   */
  lemma PlannedOrderIsKept(steps: seq<PlanStep>, p: nat, i: int, q: nat, j: int)
    requires DistinctIds(steps) && IsSorted(steps) && RefersBack(steps)
    requires p < |steps| && q < |steps| && steps[p].id < steps[q].id
    requires steps[p].id in steps[q].dependsOn || steps[p].id in steps[q].refs || Conflict(steps[q], steps[p])
    requires InBatch(BatchesOf(Annotated(steps)), i, Annotated(steps)[p])
    requires InBatch(BatchesOf(Annotated(steps)), j, Annotated(steps)[q])
    ensures i < j
  {
    assert p < q;
    hide *;
    DependsExactly(steps, q, steps[p].id);
    AnnotatedKeeps(steps);
    DependenciesRunEarlier(steps, i, Annotated(steps)[p], j, Annotated(steps)[q]);
  }

  // ---------- who shares a batch ----------

  ghost predicate NoneOf(batches: seq<seq<PlanStep>>, g: int) {
    forall b, s :: InBatch(batches, b, s) ==> s.group != g
  }

  /** From position `from` on come exactly the batches with a member of the group. */
  ghost predicate StandsAt(batches: seq<seq<PlanStep>>, chunk: seq<seq<PlanStep>>, from: nat, g: int) {
    && from + |chunk| <= |batches| && batches[from..from + |chunk|] == chunk
    && forall b, s :: InBatch(batches, b, s) && s.group == g ==> from <= b < from + |chunk|
  }

  lemma ChunkHasNone(steps: seq<PlanStep>, h: int, g: int)
    requires h != g
    ensures NoneOf(Chunk(GroupOf(steps, h)), g)
  {
    ChunkMembers(GroupOf(steps, h));
  }

  lemma LaterHasNone(order: seq<PlanStep>, steps: seq<PlanStep>, seen: set<int>, g: int)
    requires AllGrouped(order) && g in seen
    ensures NoneOf(Batches(order, steps, seen), g)
  {
    forall b, s | InBatch(Batches(order, steps, seen), b, s)
      ensures s.group != g
    {
      BatchMembers(order, steps, seen, b, s);
    }
  }

  lemma StandsFirst(chunk: seq<seq<PlanStep>>, later: seq<seq<PlanStep>>, g: int)
    requires NoneOf(later, g)
    ensures StandsAt(chunk + later, chunk, 0, g)
  {
    forall b, s | InBatch(chunk + later, b, s) && b >= |chunk|
      ensures s.group != g
    {
      assert InBatch(later, b - |chunk|, s);
    }
  }

  lemma StandsBehind(first: seq<seq<PlanStep>>, batches: seq<seq<PlanStep>>, chunk: seq<seq<PlanStep>>, from: nat,
                     g: int)
    requires NoneOf(first, g) && StandsAt(batches, chunk, from, g)
    ensures StandsAt(first + batches, chunk, |first| + from, g)
  {
    forall b, s | InBatch(first + batches, b, s) && s.group == g
      ensures |first| + from <= b < |first| + from + |chunk|
    {
      if b < |first| {
        assert InBatch(first, b, s);
      } else {
        assert InBatch(batches, b - |first|, s);
      }
    }
  }

  lemma HeadOrRest(order: seq<PlanStep>, g: int)
    requires AllGrouped(order) && g in GroupsIn(order)
    ensures order != [] && AllGrouped(order[1..]) && (order[0].group == g || g in GroupsIn(order[1..]))
  {
  }

  /** The batches of one group stand together, and no other batch has a member of it. */
  lemma {:induction false} GroupStandsTogether(order: seq<PlanStep>, steps: seq<PlanStep>, seen: set<int>, g: int)
    returns (from: nat)
    requires AllGrouped(order) && g !in seen && g in GroupsIn(order)
    ensures StandsAt(Batches(order, steps, seen), Chunk(GroupOf(steps, g)), from, g)
  {
    hide *;
    HeadOrRest(order, g);
    BatchesUnfold(order, steps, seen);
    var head, rest := order[0], order[1..];
    if head.group == g {
      from := 0;
      LaterHasNone(rest, steps, seen + {g}, g);
      StandsFirst(Chunk(GroupOf(steps, g)), Batches(rest, steps, seen + {g}), g);
    } else if head.group in seen {
      from := GroupStandsTogether(rest, steps, seen, g);
    } else {
      var first := Chunk(GroupOf(steps, head.group));
      from := GroupStandsTogether(rest, steps, seen + {head.group}, g);
      ChunkHasNone(steps, head.group, g);
      StandsBehind(first, Batches(rest, steps, seen + {head.group}), Chunk(GroupOf(steps, g)), from, g);
      from := |first| + from;
    }
  }

  lemma SliceAt<T>(s: seq<T>, from: nat, part: seq<T>, b: int)
    requires from + |part| <= |s| && s[from..from + |part|] == part && from <= b < from + |part|
    ensures s[b] == part[b - from]
  {
  }

  lemma StandsMeans(batches: seq<seq<PlanStep>>, chunk: seq<seq<PlanStep>>, from: nat, g: int, b: int, x: PlanStep)
    requires StandsAt(batches, chunk, from, g) && InBatch(batches, b, x) && x.group == g
    ensures from <= b < from + |chunk| <= |batches| && batches[b] == chunk[b - from] && x in chunk[b - from]
  {
    SliceAt(batches, from, chunk, b);
  }

  lemma ChunkMeans(group: seq<PlanStep>)
    ensures DesktopCount(group) <= 1 ==> Chunk(group) == [group]
    ensures DesktopCount(group) > 1 ==>
              |Chunk(group)| == |group| && forall i :: 0 <= i < |group| ==> Chunk(group)[i] == [group[i]]
  {
  }

  lemma BatchIsInChunk(batches: seq<seq<PlanStep>>, group: seq<PlanStep>, from: nat, g: int, b: int, x: PlanStep)
    requires StandsAt(batches, Chunk(group), from, g) && InBatch(batches, b, x) && x.group == g
    ensures 0 <= b < |batches|
    ensures DesktopCount(group) <= 1 ==> b == from && batches[b] == group
    ensures DesktopCount(group) > 1 ==>
              from <= b < from + |group| && group[b - from] == x && batches[b] == [x]
  {
    hide *;
    StandsMeans(batches, Chunk(group), from, g, b, x);
    ChunkMeans(group);
  }

  lemma GroupIsThere(plan: seq<PlanStep>, x: PlanStep)
    requires AllGrouped(plan) && x in plan
    ensures AllGrouped(Sorted(plan)) && x.group in GroupsIn(Sorted(plan)) && x in GroupOf(Sorted(plan), x.group)
  {
    SortedHas(plan, x);
    forall s | s in Sorted(plan)
      ensures s.group >= 0
    {
      SortedHas(plan, s);
    }
  }

  lemma BatchesOfGroup(plan: seq<PlanStep>, g: int) returns (from: nat)
    requires AllGrouped(plan) && g in GroupsIn(plan)
    ensures StandsAt(BatchesOf(plan), Chunk(GroupOf(Sorted(plan), g)), from, g)
  {
    var x :| x in plan && x.group == g;
    GroupIsThere(plan, x);
    from := GroupStandsTogether(Sorted(plan), Sorted(plan), {}, g);
  }

  lemma {:induction false} UsersAmong(steps: seq<PlanStep>)
    ensures DesktopCount(steps) >= 1 ==> exists i :: 0 <= i < |steps| && UsesDesktop(steps[i])
    ensures DesktopCount(steps) >= 2 ==>
              exists i, j :: 0 <= i < j < |steps| && UsesDesktop(steps[i]) && UsesDesktop(steps[j])
  {
    hide UsesDesktop;
    if steps != [] {
      var rest := steps[1..];
      UsersAmong(rest);
      if DesktopCount(rest) >= 2 {
        var i, j :| 0 <= i < j < |rest| && UsesDesktop(rest[i]) && UsesDesktop(rest[j]);
        assert steps[i + 1] == rest[i] && steps[j + 1] == rest[j];
      } else if DesktopCount(rest) >= 1 {
        var i :| 0 <= i < |rest| && UsesDesktop(rest[i]);
        assert steps[i + 1] == rest[i];
      }
    }
  }

  /** A group may run as one batch: no two different steps of it use the desktop. */
  ghost predicate MayShare(plan: seq<PlanStep>, g: int) {
    forall s, t :: s in plan && t in plan && s.group == g && t.group == g
      && (Desktop in s.declaredReads || Desktop in s.declaredWrites || s.desktopText)
      && (Desktop in t.declaredReads || Desktop in t.declaredWrites || t.desktopText)
      ==> s == t
  }

  lemma UsesDesktopMeans(s: PlanStep)
    ensures UsesDesktop(s) <==> Desktop in s.declaredReads || Desktop in s.declaredWrites || s.desktopText
  {
  }


  lemma LeastInFront(first: PlanStep, rest: seq<PlanStep>)
    requires IsSorted(rest) && DistinctIds(rest) && forall s :: s in rest ==> first.id < s.id
    ensures IsSorted([first] + rest) && DistinctIds([first] + rest)
  {
  }

  lemma TailIsOrdered(steps: seq<PlanStep>)
    requires steps != [] && IsSorted(steps) && DistinctIds(steps)
    ensures IsSorted(steps[1..]) && DistinctIds(steps[1..]) && forall s :: s in steps[1..] ==> steps[0].id < s.id
  {
  }

  lemma {:induction false} WithinKeepsOrder(steps: seq<PlanStep>, groups: set<int>)
    requires IsSorted(steps) && DistinctIds(steps)
    ensures IsSorted(Within(steps, groups)) && DistinctIds(Within(steps, groups))
  {
    if steps != [] {
      TailIsOrdered(steps);
      hide IsSorted, DistinctIds;
      WithinKeepsOrder(steps[1..], groups);
      LeastInFront(steps[0], Within(steps[1..], groups));
    }
  }

  lemma GroupIsOrdered(plan: seq<PlanStep>, g: int)
    requires DistinctIds(plan)
    ensures IsSorted(GroupOf(Sorted(plan), g)) && DistinctIds(GroupOf(Sorted(plan), g))
    ensures forall s :: s in GroupOf(Sorted(plan), g) <==> s in plan && s.group == g
  {
    SortedIsSorted(plan);
    SameStepsDistinct(plan, Sorted(plan));
    WithinKeepsOrder(Sorted(plan), {g});
    forall s
      ensures s in GroupOf(Sorted(plan), g) <==> s in plan && s.group == g
    {
      SortedHas(plan, s);
    }
  }

  lemma MayShareExactly(plan: seq<PlanStep>, g: int)
    requires DistinctIds(plan)
    ensures MayShare(plan, g) <==> DesktopCount(GroupOf(Sorted(plan), g)) <= 1
  {
    hide UsesDesktop, DesktopCount, Sorted, GroupOf;
    var group := GroupOf(Sorted(plan), g);
    GroupIsOrdered(plan, g);
    UsersAmong(group);
    if DesktopCount(group) > 1 {
      var i, j :| 0 <= i < j < |group| && UsesDesktop(group[i]) && UsesDesktop(group[j]);
      assert group[i] in group && group[j] in group && group[i].id != group[j].id;
      UsesDesktopMeans(group[i]);
      UsesDesktopMeans(group[j]);
    } else {
      forall s, t | s in plan && t in plan && s.group == g && t.group == g && UsesDesktop(s) && UsesDesktop(t)
        ensures s == t
      {
        var i :| 0 <= i < |group| && group[i] == s;
        var j :| 0 <= j < |group| && group[j] == t;
        if i != j {
          TwoUsersAreCounted(group, if i < j then i else j, if i < j then j else i);
        }
      }
      forall s | s in plan
        ensures UsesDesktop(s) <==> Desktop in s.declaredReads || Desktop in s.declaredWrites || s.desktopText
      {
        UsesDesktopMeans(s);
      }
    }
  }

  /**
   Two steps are run at the same time exactly when they are in one group in which at most one step uses
   the desktop: nothing is run together that must not be, and nothing one after the other without need.
   */
  lemma SharedBatchExactly(plan: seq<PlanStep>, x: PlanStep, y: PlanStep)
    requires AllGrouped(plan) && DistinctIds(plan) && x in plan && y in plan && x != y
    ensures (exists b :: InBatch(BatchesOf(plan), b, x) && InBatch(BatchesOf(plan), b, y)) <==>
            x.group == y.group && MayShare(plan, x.group)
  {
    hide BatchesOf, MayShare, GroupOf, Sorted, DesktopCount, StandsAt, AllGrouped;
    MayShareExactly(plan, x.group);
    var from := BatchesOfGroup(plan, x.group);
    var i := HasABatch(plan, x);
    GroupIsOrdered(plan, x.group);
    BatchIsInChunk(BatchesOf(plan), GroupOf(Sorted(plan), x.group), from, x.group, i, x);
    if b :| InBatch(BatchesOf(plan), b, x) && InBatch(BatchesOf(plan), b, y) {
      BatchHasOneGroupOf(plan, b, x, y);
      BatchIsInChunk(BatchesOf(plan), GroupOf(Sorted(plan), x.group), from, x.group, b, x);
      BatchIsInChunk(BatchesOf(plan), GroupOf(Sorted(plan), x.group), from, x.group, b, y);
    }
    if x.group == y.group && MayShare(plan, x.group) {
      assert InBatch(BatchesOf(plan), i, y);
    }
  }

  lemma BatchHasOneGroupOf(plan: seq<PlanStep>, b: int, x: PlanStep, y: PlanStep)
    requires AllGrouped(plan) && InBatch(BatchesOf(plan), b, x) && InBatch(BatchesOf(plan), b, y)
    ensures x.group == y.group
  {
    BatchStepIsInPlan(plan, b, x);
    BatchHasOneGroup(Sorted(plan), Sorted(plan), {}, b, x, y);
  }

  /** Within a group the plan's order is kept: in a batch, and over the batches of a split group. */
  lemma GroupRunsInIdOrder(plan: seq<PlanStep>, i: int, x: PlanStep, j: int, y: PlanStep)
    requires AllGrouped(plan) && DistinctIds(plan) && x.group == y.group && x.id < y.id
    requires InBatch(BatchesOf(plan), i, x) && InBatch(BatchesOf(plan), j, y)
    ensures i <= j && IsSorted(BatchesOf(plan)[i])
  {
    hide BatchesOf, GroupOf, Sorted, DesktopCount, StandsAt;
    BatchStepIsInPlan(plan, i, x);
    GroupIsOrdered(plan, x.group);
    var from := BatchesOfGroup(plan, x.group);
    BatchIsInChunk(BatchesOf(plan), GroupOf(Sorted(plan), x.group), from, x.group, i, x);
    BatchIsInChunk(BatchesOf(plan), GroupOf(Sorted(plan), x.group), from, x.group, j, y);
  }
}
