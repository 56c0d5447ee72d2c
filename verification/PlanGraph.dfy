/** `dag_builder`: resource conflicts become edges, and edges become parallel group numbers. */
module PlanGraph {
  /**
   A resource a step reads or writes. A file path is normalised: its drive or root ("" when it is
   relative), the number of leading "..", and the remaining components.
   */
  datatype Resource =
    | File(root: string, ups: nat, parts: seq<string>)
    | Named(name: string)
    | Desktop

  /**
   What the planner knows of a step. `refs` are the `step_N_output` references in its text,
   `foundReads` and `foundWrites` the resources recognised in its text.
   */
  datatype PlanStep = PlanStep(
    id: int,
    dependsOn: set<int>,
    refs: set<int>,
    declaredReads: set<Resource>,
    declaredWrites: set<Resource>,
    foundReads: set<Resource>,
    foundWrites: set<Resource>,
    desktopText: bool,
    group: int)
  {
    function Reads(): set<Resource> { declaredReads + foundReads }
    function Writes(): set<Resource> { declaredWrites + foundWrites }
    predicate TouchesDesktop() { Desktop in Reads() + Writes() }
  }

  datatype DagNode = DagNode(id: int, dependsOn: set<int>, allReads: set<Resource>, allWrites: set<Resource>)

  predicate PathsOverlap(a: Resource, b: Resource) {
    a.File? && b.File? && a.root == b.root && a.ups == b.ups && (a.parts <= b.parts || b.parts <= a.parts)
  }

  predicate FileConflict(a: PlanStep, b: PlanStep) {
    || (exists w, r :: w in a.Writes() && r in b.Reads() + b.Writes() && PathsOverlap(w, r))
    || (exists w, r :: w in b.Writes() && r in a.Reads() + a.Writes() && PathsOverlap(w, r))
  }

  /** Two steps that must not run at the same time. */
  predicate Conflict(a: PlanStep, b: PlanStep) {
    || (a.TouchesDesktop() && b.TouchesDesktop())
    || a.Reads() * b.Writes() != {}
    || a.Writes() * b.Writes() != {}
    || a.Writes() * b.Reads() != {}
    || FileConflict(a, b)
  }

  lemma ConflictIsSymmetric(a: PlanStep, b: PlanStep)
    requires Conflict(a, b)
    ensures Conflict(b, a)
  {
    assert a.Reads() * b.Writes() == b.Writes() * a.Reads();
    assert a.Writes() * b.Writes() == b.Writes() * a.Writes();
    assert a.Writes() * b.Reads() == b.Reads() * a.Writes();
  }

  predicate DistinctIds(steps: seq<PlanStep>) {
    forall i, j :: 0 <= i < j < |steps| ==> steps[i].id != steps[j].id
  }

  /** Earlier steps, in plan order, that step `i` conflicts with. */
  function Blockers(steps: seq<PlanStep>, i: nat): set<int>
    requires i < |steps|
  {
    set j | 0 <= j < i && Conflict(steps[i], steps[j]) :: steps[j].id
  }

  function NodeOf(steps: seq<PlanStep>, i: nat): DagNode
    requires i < |steps|
  {
    DagNode(steps[i].id, steps[i].dependsOn + steps[i].refs + Blockers(steps, i),
            steps[i].Reads(), steps[i].Writes())
  }

  function DagOf(steps: seq<PlanStep>): seq<DagNode> {
    seq(|steps|, i requires 0 <= i < |steps| => NodeOf(steps, i))
  }

  method BuildDag(steps: seq<PlanStep>) returns (nodes: seq<DagNode>)
    ensures nodes == DagOf(steps)
  {
    nodes := [];
    for i := 0 to |steps|
      invariant |nodes| == i
      invariant forall k :: 0 <= k < i ==> nodes[k] == NodeOf(steps, k)
    {
      var depends := steps[i].dependsOn + steps[i].refs;
      for j := 0 to i
        invariant depends == steps[i].dependsOn + steps[i].refs
                             + (set k | 0 <= k < j && Conflict(steps[i], steps[k]) :: steps[k].id)
      {
        if Conflict(steps[i], steps[j]) {
          depends := depends + {steps[j].id};
        }
      }
      nodes := nodes + [DagNode(steps[i].id, depends, steps[i].Reads(), steps[i].Writes())];
    }
  }

  // ---------- parallel groups ----------

  /** Dependency sets still to be satisfied, by step id. */
  type Remaining = map<int, set<int>>

  /** `{node.step_id: set(node.depends_on) for node in dag}`. */
  function RemainingOf(dag: seq<DagNode>): Remaining {
    if dag == [] then map[]
    else
      var last := dag[|dag| - 1];
      RemainingOf(dag[..|dag| - 1])[last.id := last.dependsOn]
  }

  lemma {:induction false} RemainingOfUnique(dag: seq<DagNode>, i: nat)
    requires i < |dag| && forall j :: i < j < |dag| ==> dag[j].id != dag[i].id
    ensures dag[i].id in RemainingOf(dag) && RemainingOf(dag)[dag[i].id] == dag[i].dependsOn
  {
    if i < |dag| - 1 {
      RemainingOfUnique(dag[..|dag| - 1], i);
    }
  }

  lemma {:induction false} RemainingKeys(dag: seq<DagNode>, id: int)
    requires id in RemainingOf(dag)
    ensures exists i :: 0 <= i < |dag| && dag[i].id == id
  {
    var last := |dag| - 1;
    if dag[last].id != id {
      RemainingKeys(dag[..last], id);
      var i :| 0 <= i < last && dag[..last][i].id == id;
      assert dag[i].id == id;
    }
  }

  function Ready(remaining: Remaining): set<int> {
    set id | id in remaining && remaining[id] == {}
  }

  function Peel(remaining: Remaining): Remaining {
    map id | id in remaining && id !in Ready(remaining) :: remaining[id] - Ready(remaining)
  }

  lemma SubsetIsSmaller(a: set<int>, b: set<int>)
    requires a <= b
    ensures |a| <= |b|
  {
    assert |b| == |a| + |b - a| by {
      assert b == a + (b - a);
    }
  }

  lemma NonEmpty(ids: set<int>)
    ensures ids == {} || exists id :: id in ids
  {
    if forall id :: id !in ids {
      assert ids == {};
    }
  }

  lemma PeelShrinks(remaining: Remaining)
    requires Ready(remaining) != {}
    ensures |Peel(remaining)| < |remaining|
  {
    NonEmpty(Ready(remaining));
    var id :| id in Ready(remaining);
    assert Peel(remaining).Keys <= remaining.Keys - {id};
    SubsetIsSmaller(Peel(remaining).Keys, remaining.Keys - {id});
    assert |Peel(remaining)| == |Peel(remaining).Keys| && |remaining| == |remaining.Keys|;
  }

  /** The nodes numbered in one round. */
  function Round(remaining: Remaining, k: nat): map<int, int> {
    map id | id in Ready(remaining) :: k
  }

  ghost predicate IsLeast(ids: set<int>, least: int) {
    least in ids && forall id :: id in ids ==> least <= id
  }

  lemma LeastExists(ids: set<int>)
    requires ids != {}
    ensures exists least :: IsLeast(ids, least)
    decreases |ids|
  {
    NonEmpty(ids);
    var id :| id in ids;
    var rest := ids - {id};
    assert forall other :: other in ids ==> other == id || other in rest;
    if rest == {} {
      assert IsLeast(ids, id);
    } else {
      LeastExists(rest);
      var least :| IsLeast(rest, least);
      assert IsLeast(ids, if id < least then id else least);
    }
  }

  ghost function Minimum(ids: set<int>): (least: int)
    requires ids != {}
    ensures least in ids && forall id :: id in ids ==> least <= id
  {
    LeastExists(ids);
    var least :| IsLeast(ids, least);
    least
  }

  /** The cycle fallback: consecutive numbers in id order. */
  ghost function Enumerated(ids: set<int>, k: nat): (numbers: map<int, int>)
    ensures numbers.Keys == ids
    ensures forall id :: id in ids ==> numbers[id] >= k
    decreases |ids|
  {
    if ids == {} then map[]
    else
      var least := Minimum(ids);
      map[least := k] + Enumerated(ids - {least}, k + 1)
  }

  lemma {:induction false} EnumeratedIncreases(ids: set<int>, k: nat, a: int, b: int)
    requires a in ids && b in ids && a < b
    ensures Enumerated(ids, k)[a] < Enumerated(ids, k)[b]
    decreases |ids|
  {
    var rest := ids - {Minimum(ids)};
    assert b in rest && b in Enumerated(rest, k + 1);
    if a in rest {
      EnumeratedIncreases(rest, k + 1, a, b);
      assert a in Enumerated(rest, k + 1);
    }
  }

  lemma RoundOrPeel(remaining: Remaining, k: nat)
    ensures Round(remaining, k).Keys + Peel(remaining).Keys == remaining.Keys
  {
    assert Round(remaining, k).Keys == Ready(remaining);
    assert Peel(remaining).Keys == remaining.Keys - Ready(remaining);
  }

  /** Group numbers from `k` on; nodes that never become ready are enumerated at the end. */
  ghost function Layers(remaining: Remaining, k: nat): (groups: map<int, int>)
    ensures groups.Keys == remaining.Keys
    ensures forall id :: id in groups ==> groups[id] >= k
    decreases |remaining|
  {
    if Ready(remaining) == {} then Enumerated(remaining.Keys, k)
    else
      PeelShrinks(remaining);
      RoundOrPeel(remaining, k);
      Round(remaining, k) + Layers(Peel(remaining), k + 1)
  }

  lemma MoveLeft(a: map<int, int>, b: map<int, int>, c: map<int, int>, whole: map<int, int>)
    requires a + (b + c) == whole
    ensures (a + b) + c == whole
  {
    assert (a + b) + c == a + (b + c);
  }

  lemma NothingLeft(numbers: map<int, int>, whole: map<int, int>)
    requires numbers + map[] == whole
    ensures numbers == whole
  {
    assert numbers + map[] == numbers;
  }

  lemma EnumerationStep(numbers: map<int, int>, rest: set<int>, next: nat, whole: map<int, int>)
    requires rest != {} && numbers + Enumerated(rest, next) == whole
    ensures (numbers + map[Minimum(rest) := next]) + Enumerated(rest - {Minimum(rest)}, next + 1) == whole
  {
    MoveLeft(numbers, map[Minimum(rest) := next], Enumerated(rest - {Minimum(rest)}, next + 1), whole);
  }

  lemma RoundStep(groups: map<int, int>, remaining: Remaining, k: nat, whole: map<int, int>)
    requires Ready(remaining) != {} && groups + Layers(remaining, k) == whole
    ensures (groups + Round(remaining, k)) + Layers(Peel(remaining), k + 1) == whole
  {
    MoveLeft(groups, Round(remaining, k), Layers(Peel(remaining), k + 1), whole);
  }

  /** Enumerates `sorted(remaining)`. */
  method NumberInOrder(ids: set<int>, k: nat) returns (numbers: map<int, int>)
    ensures numbers == Enumerated(ids, k)
  {
    hide *;
    ghost var whole := Enumerated(ids, k);
    numbers := map[];
    assert numbers + whole == whole;
    var rest, next: nat := ids, k;
    while rest != {}
      invariant numbers + Enumerated(rest, next) == whole
      decreases |rest|
    {
      EnumerationStep(numbers, rest, next, whole);
      var least := Least(rest);
      Removed(rest, least);
      numbers := numbers + map[least := next];
      rest, next := rest - {least}, next + 1;
    }
    NothingEnumerated(next);
    NothingLeft(numbers, whole);
  }

  lemma NothingEnumerated(k: nat)
    ensures Enumerated({}, k) == map[]
  {
  }

  lemma Removed(ids: set<int>, id: int)
    requires id in ids
    ensures |ids - {id}| < |ids|
  {
  }

  method Least(ids: set<int>) returns (least: int)
    requires ids != {}
    ensures least == Minimum(ids)
  {
    NonEmpty(ids);
    least :| least in ids;
    var rest := ids - {least};
    while rest != {}
      invariant rest <= ids && least in ids
      invariant forall id :: id in ids && id !in rest ==> least <= id
      decreases rest
    {
      NonEmpty(rest);
      var id :| id in rest;
      if id < least {
        least := id;
      }
      rest := rest - {id};
    }
  }

  /** The peeling loop. */
  method NumberRounds(start: Remaining) returns (groups: map<int, int>)
    ensures groups == Layers(start, 0)
  {
    ghost var whole := Layers(start, 0);
    var remaining := start;
    groups := map[];
    var groupNo: nat := 0;
    while remaining != map[]
      invariant groups + Layers(remaining, groupNo) == whole
      decreases |remaining|
    {
      if Ready(remaining) == {} {
        var numbers := NumberInOrder(remaining.Keys, groupNo);
        return groups + numbers;
      }
      PeelShrinks(remaining);
      RoundStep(groups, remaining, groupNo, whole);
      groups := groups + Round(remaining, groupNo);
      remaining := Peel(remaining);
      groupNo := groupNo + 1;
    }
    NothingLeft(groups, whole);
  }

  method AssignParallelGroups(dag: seq<DagNode>) returns (groups: map<int, int>)
    ensures groups == Layers(RemainingOf(dag), 0)
  {
    groups := NumberRounds(RemainingOf(dag));
  }
}
