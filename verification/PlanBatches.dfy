/** `ExecutionEngine._group_by_dependency`: group numbers become the batches that are run in turn. */
module PlanBatches {
  import opened PlanGraph

  /** `_uses_shared_desktop`: by its resources or by its text. */
  predicate UsesDesktop(s: PlanStep) {
    Desktop in s.declaredReads + s.declaredWrites || s.desktopText
  }

  predicate IsSorted(steps: seq<PlanStep>) {
    forall i, j :: 0 <= i < j < |steps| ==> steps[i].id <= steps[j].id
  }

  function Insert(s: PlanStep, sorted: seq<PlanStep>): (r: seq<PlanStep>)
    ensures multiset(r) == multiset(sorted) + multiset{s}
  {
    if sorted == [] || s.id <= sorted[0].id then [s] + sorted
    else
      assert sorted == [sorted[0]] + sorted[1..];
      [sorted[0]] + Insert(s, sorted[1..])
  }

  /** `sorted(steps, key=lambda s: s.step_id)`; earlier steps stay first among equals. */
  function Sorted(steps: seq<PlanStep>): (r: seq<PlanStep>)
    ensures multiset(r) == multiset(steps)
  {
    if steps == [] then []
    else
      assert steps == [steps[0]] + steps[1..];
      Insert(steps[0], Sorted(steps[1..]))
  }

  lemma {:induction false} InsertKeepsSorted(s: PlanStep, sorted: seq<PlanStep>)
    requires IsSorted(sorted)
    ensures IsSorted(Insert(s, sorted))
  {
    if sorted != [] && s.id > sorted[0].id {
      InsertKeepsSorted(s, sorted[1..]);
      var rest := Insert(s, sorted[1..]);
      forall j | 0 <= j < |rest|
        ensures sorted[0].id <= rest[j].id
      {
        assert rest[j] in multiset(rest);
      }
    }
  }

  lemma {:induction false} SortedIsSorted(steps: seq<PlanStep>)
    ensures IsSorted(Sorted(steps))
  {
    if steps != [] {
      SortedIsSorted(steps[1..]);
      InsertKeepsSorted(steps[0], Sorted(steps[1..]));
    }
  }

  /** The steps of the given groups, in order. */
  function Within(steps: seq<PlanStep>, groups: set<int>): (r: seq<PlanStep>)
    ensures forall x :: x in r <==> x in steps && x.group in groups
  {
    if steps == [] then []
    else if steps[0].group in groups then [steps[0]] + Within(steps[1..], groups)
    else Within(steps[1..], groups)
  }

  function GroupOf(steps: seq<PlanStep>, g: int): seq<PlanStep> {
    Within(steps, {g})
  }

  function DesktopCount(steps: seq<PlanStep>): nat {
    if steps == [] then 0 else (if UsesDesktop(steps[0]) then 1 else 0) + DesktopCount(steps[1..])
  }

  function Singles(steps: seq<PlanStep>): (r: seq<seq<PlanStep>>)
    ensures |r| == |steps| && forall i :: 0 <= i < |r| ==> r[i] == [steps[i]]
  {
    seq(|steps|, i requires 0 <= i < |steps| => [steps[i]])
  }

  /** One group's batches: a single one, or one per step when several use the desktop. */
  function Chunk(group: seq<PlanStep>): seq<seq<PlanStep>> {
    if DesktopCount(group) <= 1 then [group] else Singles(group)
  }

  function Batches(order: seq<PlanStep>, steps: seq<PlanStep>, seen: set<int>): seq<seq<PlanStep>> {
    if order == [] then []
    else
      var s, rest := order[0], order[1..];
      if s.group < 0 then [[s]] + Batches(rest, steps, seen)
      else if s.group in seen then Batches(rest, steps, seen)
      else Chunk(GroupOf(steps, s.group)) + Batches(rest, steps, seen + {s.group})
  }

  function BatchesOf(steps: seq<PlanStep>): seq<seq<PlanStep>> {
    Batches(Sorted(steps), Sorted(steps), {})
  }

  /** The branch for plans with at least one group number; sorting the group is sorting the plan first. */
  method GroupByParallelGroup(steps: seq<PlanStep>) returns (batches: seq<seq<PlanStep>>)
    ensures batches == BatchesOf(steps)
  {
    var order := Sorted(steps);
    batches := [];
    var seen := {};
    for i := 0 to |order|
      invariant batches + Batches(order[i..], order, seen) == BatchesOf(steps)
    {
      var s := order[i];
      assert order[i..][0] == s && order[i..][1..] == order[i + 1..];
      if s.group < 0 {
        Regroup(batches, [[s]], Batches(order[i + 1..], order, seen));
        batches := batches + [[s]];
      } else if s.group !in seen {
        Regroup(batches, Chunk(GroupOf(order, s.group)), Batches(order[i + 1..], order, seen + {s.group}));
        seen := seen + {s.group};
        batches := batches + Chunk(GroupOf(order, s.group));
      }
    }
  }

  lemma Regroup<T>(a: seq<T>, b: seq<T>, c: seq<T>)
    ensures (a + b) + c == a + (b + c)
  {
  }
}
