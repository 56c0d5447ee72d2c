/** `annotate_steps`: writes dependencies, resources and group numbers into the plan's steps. */
module PlanAnnotation {
  import opened Options
  import opened PlanGraph

  /** The dictionary of nodes by step id; a later node replaces an earlier one. */
  function NodeFor(dag: seq<DagNode>, id: int): Option<DagNode> {
    if dag == [] then None
    else if dag[|dag| - 1].id == id then Some(dag[|dag| - 1])
    else NodeFor(dag[..|dag| - 1], id)
  }

  function GroupFor(groups: map<int, int>, id: int): int {
    if id in groups then groups[id] else -1
  }

  function AnnotatedBy(s: PlanStep, dag: seq<DagNode>, groups: map<int, int>): PlanStep {
    match NodeFor(dag, s.id)
    case None => s
    case Some(node) =>
      s.(dependsOn := node.dependsOn, declaredReads := node.allReads, declaredWrites := node.allWrites,
         group := GroupFor(groups, s.id))
  }

  /** The plan as the planner hands it to the engine. */
  ghost function Annotated(steps: seq<PlanStep>): (plan: seq<PlanStep>)
    ensures |plan| == |steps|
  {
    seq(|steps|, i requires 0 <= i < |steps| =>
      AnnotatedBy(steps[i], DagOf(steps), Layers(RemainingOf(DagOf(steps)), 0)))
  }

  lemma {:induction false} NodeForUnique(dag: seq<DagNode>, i: nat)
    requires i < |dag| && forall j :: 0 <= j < |dag| && j != i ==> dag[j].id != dag[i].id
    ensures NodeFor(dag, dag[i].id) == Some(dag[i])
  {
    if i < |dag| - 1 {
      NodeForUnique(dag[..|dag| - 1], i);
    }
  }

  lemma NodeForStep(steps: seq<PlanStep>, i: nat)
    requires DistinctIds(steps) && i < |steps|
    ensures NodeFor(DagOf(steps), steps[i].id) == Some(NodeOf(steps, i))
  {
    NodeForUnique(DagOf(steps), i);
  }

  /** A planner step, whose planning fields are updated in place. */
  class ActionStep {
    const id: int
    const refs: set<int>
    const foundReads: set<Resource>
    const foundWrites: set<Resource>
    const desktopText: bool
    var dependsOn: set<int>
    var declaredReads: set<Resource>
    var declaredWrites: set<Resource>
    var group: int

    constructor (s: PlanStep)
      ensures View() == s
    {
      id, refs, desktopText := s.id, s.refs, s.desktopText;
      foundReads, foundWrites := s.foundReads, s.foundWrites;
      dependsOn, group := s.dependsOn, s.group;
      declaredReads, declaredWrites := s.declaredReads, s.declaredWrites;
    }

    function View(): PlanStep
      reads this
    {
      PlanStep(id, dependsOn, refs, declaredReads, declaredWrites, foundReads, foundWrites, desktopText, group)
    }
  }

  function Views(steps: seq<ActionStep>): seq<PlanStep>
    reads steps
  {
    seq(|steps|, i requires 0 <= i < |steps| reads steps => steps[i].View())
  }

  method AnnotateSteps(steps: seq<ActionStep>, dag: seq<DagNode>, groups: map<int, int>)
    requires forall i, j :: 0 <= i < j < |steps| ==> steps[i] != steps[j]
    modifies steps
    ensures forall i :: 0 <= i < |steps| ==> steps[i].View() == AnnotatedBy(old(steps[i].View()), dag, groups)
  {
    for i := 0 to |steps|
      invariant forall k :: 0 <= k < i ==> steps[k].View() == AnnotatedBy(old(steps[k].View()), dag, groups)
      invariant forall k :: i <= k < |steps| ==> steps[k].View() == old(steps[k].View())
    {
      var node := NodeFor(dag, steps[i].id);
      if node.Some? {
        steps[i].dependsOn := node.value.dependsOn;
        steps[i].declaredReads := node.value.allReads;
        steps[i].declaredWrites := node.value.allWrites;
        steps[i].group := GroupFor(groups, steps[i].id);
      }
    }
  }

  /** The planner's whole pass over a fresh plan: build the graph, number the groups, annotate. */
  method PlanGroups(steps: seq<ActionStep>)
    requires forall i, j :: 0 <= i < j < |steps| ==> steps[i] != steps[j]
    modifies steps
    ensures Views(steps) == Annotated(old(Views(steps)))
  {
    var dag := BuildDag(Views(steps));
    var groups := AssignParallelGroups(dag);
    AnnotateSteps(steps, dag, groups);
  }
}
