/** What the group numbers of `assign_parallel_groups` promise. */
module PlanLayers {
  import opened PlanGraph

  function Below(ids: set<int>, id: int): set<int> {
    set other | other in ids && other < id
  }

  /** In the cycle fallback a node's number counts the smaller ids: consecutive numbers in id order. */
  lemma {:induction false} EnumeratedExactly(ids: set<int>, k: nat, id: int)
    requires id in ids
    ensures Enumerated(ids, k)[id] == k + |Below(ids, id)|
    decreases |ids|
  {
    var least := Minimum(ids);
    var rest := ids - {least};
    if id == least {
      assert Below(ids, id) == {};
      assert id !in Enumerated(rest, k + 1);
    } else {
      EnumeratedExactly(rest, k + 1, id);
      assert Below(ids, id) == Below(rest, id) + {least};
      assert id in Enumerated(rest, k + 1);
    }
  }

  /** A node that has a dependency left over keeps it apart from that dependency, cycles or not. */
  lemma {:induction false} DependencyNeverShares(remaining: Remaining, k: nat, d: int, n: int)
    requires n in remaining && d in remaining && d in remaining[n] && d != n
    ensures Layers(remaining, k)[d] != Layers(remaining, k)[n]
    decreases |remaining|
  {
    if Ready(remaining) == {} {
      EnumeratedIncreases(remaining.Keys, k, if d < n then d else n, if d < n then n else d);
    } else if d !in Ready(remaining) {
      PeelShrinks(remaining);
      DependencyNeverShares(Peel(remaining), k + 1, d, n);
    } else {
      PeelShrinks(remaining);
      assert n in Layers(Peel(remaining), k + 1);
    }
  }

  /** A dependency on a smaller id always gets the smaller number, cycles or not. */
  lemma {:induction false} SmallerDependencyIsEarlier(remaining: Remaining, k: nat, d: int, n: int)
    requires n in remaining && d in remaining && d in remaining[n] && d < n
    ensures Layers(remaining, k)[d] < Layers(remaining, k)[n]
    decreases |remaining|
  {
    if Ready(remaining) == {} {
      EnumeratedIncreases(remaining.Keys, k, d, n);
    } else {
      PeelShrinks(remaining);
      if d !in Ready(remaining) {
        SmallerDependencyIsEarlier(Peel(remaining), k + 1, d, n);
      }
      assert n in Layers(Peel(remaining), k + 1);
    }
  }

  // ---------- complete acyclic plans: the layering is the least one ----------

  /** Every dependency is a node; `rank` orders the nodes, so there is no cycle. */
  ghost predicate IsLayering(remaining: Remaining, rank: map<int, int>, from: int) {
    && rank.Keys >= remaining.Keys
    && (forall n :: n in remaining ==> remaining[n] <= remaining.Keys && rank[n] >= from)
    && (forall n, d :: n in remaining && d in remaining[n] ==> rank[d] < rank[n])
  }

  lemma SomeNodeIsReady(remaining: Remaining, rank: map<int, int>, from: int)
    requires remaining != map[] && IsLayering(remaining, rank, from)
    ensures Ready(remaining) != {}
  {
    NonEmpty(remaining.Keys);
    var n :| n in remaining.Keys;
    var r := FollowDependencies(remaining, rank, from, n);
  }

  /** Walking down dependencies ends at a node without any. */
  lemma FollowDependencies(remaining: Remaining, rank: map<int, int>, from: int, n: int) returns (r: int)
    requires n in remaining && IsLayering(remaining, rank, from)
    ensures r in Ready(remaining)
    decreases rank[n] - from
  {
    NonEmpty(remaining[n]);
    if remaining[n] == {} {
      r := n;
    } else {
      var d :| d in remaining[n];
      assert d in remaining.Keys;
      r := FollowDependencies(remaining, rank, from, d);
    }
  }

  lemma PeelingKeepsLayering(remaining: Remaining, rank: map<int, int>, from: int)
    requires IsLayering(remaining, rank, from)
    ensures IsLayering(Peel(remaining), rank, from + 1)
  {
    forall n | n in Peel(remaining)
      ensures rank[n] >= from + 1
    {
      assert n !in Ready(remaining);
      NonEmpty(remaining[n]);
      var d :| d in remaining[n];
      assert d in remaining.Keys;
    }
  }

  /** No valid layering puts any node lower, so no layering has fewer layers. */
  lemma {:induction false} LayersAreLeast(remaining: Remaining, rank: map<int, int>, k: nat)
    requires IsLayering(remaining, rank, k)
    ensures forall n :: n in remaining ==> Layers(remaining, k)[n] <= rank[n]
    decreases |remaining|
  {
    if remaining != map[] {
      SomeNodeIsReady(remaining, rank, k);
      PeelShrinks(remaining);
      PeelingKeepsLayering(remaining, rank, k);
      LayersAreLeast(Peel(remaining), rank, k + 1);
    }
  }

  lemma {:induction false} LayersRespect(remaining: Remaining, rank: map<int, int>, k: nat, d: int, n: int)
    requires IsLayering(remaining, rank, k)
    requires n in remaining && d in remaining && d in remaining[n]
    ensures Layers(remaining, k)[d] < Layers(remaining, k)[n]
    decreases |remaining|
  {
    SomeNodeIsReady(remaining, rank, k);
    PeelShrinks(remaining);
    PeelingKeepsLayering(remaining, rank, k);
    if d !in Ready(remaining) {
      LayersRespect(Peel(remaining), rank, k + 1, d, n);
    }
    assert n in Layers(Peel(remaining), k + 1);
  }

  /** And the numbers are a valid layering themselves, whatever the order of the ids. */
  lemma LayersAreALayering(remaining: Remaining, rank: map<int, int>, k: nat)
    requires IsLayering(remaining, rank, k)
    ensures IsLayering(remaining, Layers(remaining, k), k)
  {
    forall n, d | n in remaining && d in remaining[n]
      ensures Layers(remaining, k)[d] < Layers(remaining, k)[n]
    {
      assert d in remaining.Keys;
      LayersRespect(remaining, rank, k, d, n);
    }
  }

  // ---------- which group comes first in id order ----------

  /** Dependencies name only smaller ids, the node itself, or ids outside the plan. */
  ghost predicate PointsBack(remaining: Remaining, ids: set<int>) {
    forall n, d :: n in remaining && d in remaining[n] ==> d <= n || d !in ids
  }

  /** Left to the cycle fallback. */
  ghost predicate Stuck(remaining: Remaining, n: int)
    decreases |remaining|
  {
    if Ready(remaining) == {} then n in remaining
    else
      PeelShrinks(remaining);
      n !in Ready(remaining) && Stuck(Peel(remaining), n)
  }

  /** A node of the fallback has its number to itself. */
  lemma {:induction false} StuckIsAlone(remaining: Remaining, k: nat, n: int, m: int)
    requires n in remaining && m in remaining && Stuck(remaining, n)
    requires Layers(remaining, k)[n] == Layers(remaining, k)[m]
    ensures n == m
    decreases |remaining|
  {
    if Ready(remaining) == {} {
      if n != m {
        EnumeratedIncreases(remaining.Keys, k, if n < m then n else m, if n < m then m else n);
      }
    } else {
      PeelShrinks(remaining);
      assert n in Layers(Peel(remaining), k + 1);
      StuckIsAlone(Peel(remaining), k + 1, n, m);
    }
  }

  /** Below a peeled node, every smaller number has a member with a smaller id. */
  lemma {:induction false} LowerGroupsStartEarlier(remaining: Remaining, ids: set<int>, k: nat, n: int, g: int)
    returns (m: int)
    requires remaining.Keys <= ids && PointsBack(remaining, ids)
    requires n in remaining && !Stuck(remaining, n) && k <= g < Layers(remaining, k)[n]
    ensures m in remaining && m < n && Layers(remaining, k)[m] == g
    decreases |remaining|, Layers(remaining, k)[n]
  {
    PeelShrinks(remaining);
    var peeled := Peel(remaining);
    assert n !in Ready(remaining) && n in Layers(peeled, k + 1);
    assert Ready(peeled) != {};
    if g > k {
      m := LowerGroupsStartEarlier(peeled, ids, k + 1, n, g);
    } else if Layers(peeled, k + 1)[n] > k + 1 {
      // first down to the next group, whose members wait only for this one
      var next := LowerGroupsStartEarlier(peeled, ids, k + 1, n, k + 1);
      m := ReadyDependency(remaining, ids, k, next, n);
    } else {
      m := ReadyDependency(remaining, ids, k, n, n);
    }
  }

  /** The first number is given to the ready nodes only. */
  lemma OthersNumberLater(remaining: Remaining, k: nat)
    requires Ready(remaining) != {}
    ensures forall n :: n in remaining && n !in Ready(remaining) ==> Layers(remaining, k)[n] > k
  {
    PeelShrinks(remaining);
    forall n | n in remaining && n !in Ready(remaining)
      ensures Layers(remaining, k)[n] > k
    {
      assert n in Layers(Peel(remaining), k + 1);
    }
  }

  lemma ReadyDependency(remaining: Remaining, ids: set<int>, k: nat, next: int, n: int) returns (m: int)
    requires Ready(remaining) != {} && Ready(Peel(remaining)) != {}
    requires remaining.Keys <= ids && PointsBack(remaining, ids)
    requires next in Peel(remaining) && next <= n && Layers(Peel(remaining), k + 1)[next] == k + 1
    ensures m in remaining && m < n && Layers(remaining, k)[m] == k
  {
    hide Layers, Ready, Peel;
    FirstNumberIsReady(Peel(remaining), k + 1, next);
    m := LastWaitedFor(remaining, next);
    ReadyIsNumberedFirst(remaining, k, m);
  }

  lemma FirstNumberIsReady(remaining: Remaining, k: nat, n: int)
    requires Ready(remaining) != {} && n in remaining && Layers(remaining, k)[n] == k
    ensures remaining[n] == {}
  {
    OthersNumberLater(remaining, k);
  }

  /** A node that becomes ready by a round waited for a node of that round. */
  lemma LastWaitedFor(remaining: Remaining, n: int) returns (m: int)
    requires n in Peel(remaining) && Peel(remaining)[n] == {}
    ensures n in remaining && m in remaining[n] && m in Ready(remaining) && m in remaining && m != n
  {
    NonEmpty(remaining[n]);
    m :| m in remaining[n];
    assert m !in Peel(remaining)[n];
  }

  lemma ReadyIsNumberedFirst(remaining: Remaining, k: nat, m: int)
    requires m in Ready(remaining)
    ensures m in remaining && Layers(remaining, k)[m] == k
  {
    PeelShrinks(remaining);
    assert m !in Layers(Peel(remaining), k + 1);
  }

  /**
   For a dependency on a smaller id, the dependency's group has a member before any member of the
   dependent's group. Batches are run in the order of their first members, so this is what counts.
   */
  lemma {:induction false} DependencyGroupStartsFirst(
    remaining: Remaining, ids: set<int>, k: nat, d: int, n: int, y: int)
    returns (x: int)
    requires remaining.Keys <= ids && PointsBack(remaining, ids)
    requires n in remaining && d in remaining && d in remaining[n] && d < n
    requires y in remaining && Layers(remaining, k)[y] == Layers(remaining, k)[n]
    ensures x in remaining && x < y && Layers(remaining, k)[x] == Layers(remaining, k)[d]
  {
    if Stuck(remaining, y) {
      StuckIsAlone(remaining, k, y, n);
      x := d;
    } else {
      SmallerDependencyIsEarlier(remaining, k, d, n);
      x := LowerGroupsStartEarlier(remaining, ids, k, y, Layers(remaining, k)[d]);
    }
  }
}
