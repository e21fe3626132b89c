/**
  The round-robin list kept under one Redis key (operator-rotation.service.ts).
  The list itself is the rotation state: its front is next in line.
  Redis commands are atomic steps; `sync` is one read followed later by one atomic write.
*/
module OperatorRotation {
  import opened Common

  // ---------------------------------------------------------------- sync

  /** What `sync` decided to write after its read of the list. */
  datatype Plan = Plan(toRemove: seq<int>, toAdd: seq<int>)

  function PlanSync(current: seq<int>, eligible: seq<int>): Plan {
    Plan(Without(current, Elems(eligible)), Without(eligible, Elems(current)))
  }

  /** First occurrences only, in order. */
  function Dedup(s: seq<int>): seq<int> {
    if s == [] then [] else [s[0]] + Without(Dedup(s[1..]), {s[0]})
  }

  /** Effect of the whole `multi`: newcomers in front, then whoever is neither removed nor re-added. */
  function Written(list: seq<int>, plan: Plan): seq<int> {
    Dedup(plan.toAdd) + Without(list, Elems(plan.toRemove) + Elems(plan.toAdd))
  }

  /** A `sync` whose read and write are not separated by anything. */
  function Synced(list: seq<int>, eligible: seq<int>): seq<int> {
    Written(list, PlanSync(list, eligible))
  }

  function Newcomers(list: seq<int>, eligible: seq<int>): seq<int> {
    Dedup(Without(eligible, Elems(list)))
  }

  lemma {:induction false} DedupShape(s: seq<int>)
    ensures Elems(Dedup(s)) == Elems(s)
    ensures Distinct(Dedup(s))
  {
    if s != [] {
      var rest := Dedup(s[1..]);
      DedupShape(s[1..]);
      WithoutElems(rest, {s[0]});
      WithoutDistinct(rest, {s[0]});
      assert s == [s[0]] + s[1..];
      assert Elems(s) == {s[0]} + Elems(s[1..]);
      assert Elems(Dedup(s)) == {s[0]} + Elems(Without(rest, {s[0]}));
      assert s[0] !in Elems(Without(rest, {s[0]}));
    }
  }

  lemma {:induction false} DedupOfDistinct(s: seq<int>)
    requires Distinct(s)
    ensures Dedup(s) == s
  {
    if s != [] {
      DedupOfDistinct(s[1..]);
      assert s[0] !in s[1..];
      WithoutIsKeep(s[1..], {s[0]}, Elems(s[1..]));
      KeepAll(s[1..], Elems(s[1..]));
    }
  }

  /** Without repetitions in the eligible ids, newcomers are the ids not listed, in the order given. */
  lemma NewcomersInOrder(list: seq<int>, eligible: seq<int>)
    requires Distinct(eligible)
    ensures Newcomers(list, eligible) == Without(eligible, Elems(list))
  {
    WithoutDistinct(eligible, Elems(list));
    DedupOfDistinct(Without(eligible, Elems(list)));
  }

  /** A write never leaves a duplicate, however stale the plan is. */
  lemma WrittenDistinct(list: seq<int>, plan: Plan)
    requires Distinct(list)
    ensures Distinct(Written(list, plan))
  {
    var gone := Elems(plan.toRemove) + Elems(plan.toAdd);
    DedupShape(plan.toAdd);
    WithoutDistinct(list, gone);
    WithoutElems(list, gone);
    var front, back := Dedup(plan.toAdd), Without(list, gone);
    forall i, j | 0 <= i < j < |front + back|
      ensures (front + back)[i] != (front + back)[j]
    {
      if i < |front| <= j {
        assert front[i] in Elems(front) && back[j - |front|] in Elems(back);
      }
    }
  }

  /**
    A plan written to a list with the same members as the one it was read from
    leaves exactly the eligible operators: newcomers first, in the order given,
    then the survivors in the order the list has at the time of the write.
  */
  lemma WrittenToSameMembers(snapshot: seq<int>, list: seq<int>, eligible: seq<int>)
    requires Elems(list) == Elems(snapshot)
    ensures Written(list, PlanSync(snapshot, eligible)) == Newcomers(snapshot, eligible) + Keep(list, Elems(eligible))
    ensures Elems(Written(list, PlanSync(snapshot, eligible))) == Elems(eligible)
  {
    var plan := PlanSync(snapshot, eligible);
    WithoutElems(snapshot, Elems(eligible));
    WithoutElems(eligible, Elems(snapshot));
    forall x | x in list
      ensures x in Elems(eligible) <==> x !in Elems(plan.toRemove) + Elems(plan.toAdd)
    {
      assert x in Elems(list);
    }
    WithoutIsKeep(list, Elems(plan.toRemove) + Elems(plan.toAdd), Elems(eligible));
    DedupShape(plan.toAdd);
    KeepElems(list, Elems(eligible));
    var front, back := Dedup(plan.toAdd), Keep(list, Elems(eligible));
    assert Elems(front + back) == Elems(front) + Elems(back) by {
      forall x ensures x in front + back <==> x in front || x in back {}
    }
  }

  lemma SyncedShape(list: seq<int>, eligible: seq<int>)
    ensures Synced(list, eligible) == Newcomers(list, eligible) + Keep(list, Elems(eligible))
    ensures Elems(Synced(list, eligible)) == Elems(eligible)
    ensures Distinct(list) ==> Distinct(Synced(list, eligible))
  {
    WrittenToSameMembers(list, list, eligible);
    if Distinct(list) {
      WrittenDistinct(list, PlanSync(list, eligible));
    }
  }

  /** A list that already holds exactly the eligible operators is left alone. */
  lemma SyncedIsStable(list: seq<int>, eligible: seq<int>)
    requires Elems(list) == Elems(eligible)
    ensures Synced(list, eligible) == list
  {
    SyncedShape(list, eligible);
    KeepAll(list, Elems(eligible));
    WithoutElems(eligible, Elems(list));
    DedupShape(Without(eligible, Elems(list)));
    assert Elems(Newcomers(list, eligible)) == {};
    NonEmptyElems(Newcomers(list, eligible));
  }

  // ---------------------------------------------------------------- rotation and pick

  /** LMOVE key key LEFT RIGHT */
  function Rotated(list: seq<int>): seq<int> {
    if list == [] then [] else list[1..] + [list[0]]
  }

  lemma RotatedShape(list: seq<int>)
    ensures Elems(Rotated(list)) == Elems(list)
    ensures Distinct(list) ==> Distinct(Rotated(list))
  {
    if list != [] {
      var r := Rotated(list);
      forall x ensures x in r <==> x in list {
        assert list == [list[0]] + list[1..];
      }
      if Distinct(list) {
        forall i, j | 0 <= i < j < |r| ensures r[i] != r[j] {
          assert r[i] == list[i + 1];
          assert j < |r| - 1 ==> r[j] == list[j + 1];
          assert j == |r| - 1 ==> r[j] == list[0];
        }
      }
    }
  }

  /** First entry from `i` on with spare capacity; `|list|` when nobody has any. */
  function FreeFrom(list: seq<int>, underCapacity: set<int>, i: nat): (k: nat)
    requires i <= |list|
    ensures i <= k <= |list|
    ensures k < |list| ==> list[k] in underCapacity
    ensures forall j :: i <= j < k ==> list[j] !in underCapacity
    decreases |list| - i
  {
    if i == |list| || list[i] in underCapacity then i else FreeFrom(list, underCapacity, i + 1)
  }

  function FirstFree(list: seq<int>, underCapacity: set<int>): (k: nat)
    ensures k <= |list|
    ensures k < |list| ==> list[k] in underCapacity
    ensures forall j :: 0 <= j < k ==> list[j] !in underCapacity
  {
    FreeFrom(list, underCapacity, 0)
  }

  /** The list after `k` atomic hops. */
  function Hopped(list: seq<int>, k: nat): seq<int> {
    if k == 0 then list else Rotated(Hopped(list, k - 1))
  }

  /** Hops keep the cyclic order: `k` of them move the first `k` entries to the back. */
  lemma {:induction false} HoppedIsCyclic(list: seq<int>, k: nat)
    requires k <= |list|
    ensures Hopped(list, k) == list[k..] + list[..k]
  {
    if k > 0 {
      HoppedIsCyclic(list, k - 1);
      var before := list[k - 1..] + list[..k - 1];
      assert before[0] == list[k - 1];
      assert before[1..] == list[k..] + list[..k - 1];
    }
  }

  lemma {:induction false} HoppedShape(list: seq<int>, k: nat)
    ensures Elems(Hopped(list, k)) == Elems(list)
    ensures Distinct(list) ==> Distinct(Hopped(list, k))
  {
    if k > 0 {
      HoppedShape(list, k - 1);
      RotatedShape(Hopped(list, k - 1));
    }
  }

  datatype Pick = Pick(chosen: Option<int>, list: seq<int>)

  /** `pickNext` run alone. An empty eligible set returns before any sync. */
  function NextPick(list: seq<int>, eligible: seq<int>, underCapacity: set<int>): Pick {
    if eligible == [] then Pick(None, list)
    else PickFrom(Synced(list, eligible), underCapacity)
  }

  /** The loop of `pickNext`: hop until somebody is free, at most once per entry. */
  function PickFrom(queue: seq<int>, underCapacity: set<int>): Pick {
    var k := FirstFree(queue, underCapacity);
    if k == |queue| then Pick(None, queue) else Pick(Some(queue[k]), Hopped(queue, k + 1))
  }

  /** The answer is the first entry of the queue that is under capacity, moved to the back by whole hops. */
  ghost predicate FirstFreeInLine(queue: seq<int>, underCapacity: set<int>, p: Pick) {
    && (p.chosen == None <==> forall x :: x in queue ==> x !in underCapacity)
    && (p.chosen == None ==> p.list == queue)
    && (p.chosen.Some? ==>
      var k := IndexOf(queue, p.chosen.value);
      && k < |queue| && queue[k] in underCapacity
      && (forall j :: 0 <= j < k ==> queue[j] !in underCapacity)
      && p.list == queue[k + 1..] + queue[..k + 1])
  }

  lemma PickFromMeaning(queue: seq<int>, underCapacity: set<int>)
    ensures FirstFreeInLine(queue, underCapacity, PickFrom(queue, underCapacity))
    ensures Distinct(queue) ==> Distinct(PickFrom(queue, underCapacity).list)
    ensures Elems(PickFrom(queue, underCapacity).list) == Elems(queue)
  {
    var k := FirstFree(queue, underCapacity);
    if k < |queue| {
      HoppedShape(queue, k + 1);
      HoppedIsCyclic(queue, k + 1);
      FirstFreeIsIndex(queue, underCapacity);
      var x: int := queue[k];
      assert x in queue && x in underCapacity;
    } else {
      forall x | x in queue ensures x !in underCapacity {
        assert queue[IndexOf(queue, x)] == x;
      }
    }
  }

  /**
    `pickNext` is complete and fair on one call: it answers null, leaving the synced queue
    as it was, exactly when no eligible operator is under capacity; otherwise it answers the
    first such operator in queue order, who ends up last while the cyclic order is kept.
  */
  lemma PickNextMeaning(list: seq<int>, eligible: seq<int>, underCapacity: set<int>)
    ensures
      var p := NextPick(list, eligible, underCapacity);
      && (p.chosen == None <==> forall x :: x in eligible ==> x !in underCapacity)
      && (p.chosen.Some? ==> p.list != [] && p.list[|p.list| - 1] == p.chosen.value)
      && (Distinct(list) ==> Distinct(p.list))
      && (eligible == [] ==> p.list == list)
      && (eligible != [] ==>
        && Elems(p.list) == Elems(eligible)
        && FirstFreeInLine(Synced(list, eligible), underCapacity, p))
  {
    if eligible != [] {
      hide Synced;
      hide PickFrom;
      var queue := Synced(list, eligible);
      SyncedShape(list, eligible);
      PickFromMeaning(queue, underCapacity);
      SameMembers(queue, eligible);
      LastOfPick(queue, underCapacity);
    }
  }

  /** Whoever is picked is last in the list that is left. */
  lemma LastOfPick(queue: seq<int>, underCapacity: set<int>)
    ensures
      var p := PickFrom(queue, underCapacity);
      p.chosen.Some? ==> p.list != [] && p.list[|p.list| - 1] == p.chosen.value
  {
    var k := FirstFree(queue, underCapacity);
    if k < |queue| {
      HoppedIsCyclic(queue, k + 1);
    }
  }

  /** The broadcast's own sync right after a pick finds nothing to do. */
  lemma SyncAfterPickIsIdle(list: seq<int>, eligible: seq<int>, underCapacity: set<int>)
    requires eligible != []
    ensures Synced(NextPick(list, eligible, underCapacity).list, eligible) == NextPick(list, eligible, underCapacity).list
  {
    PickNextMeaning(list, eligible, underCapacity);
    SyncedIsStable(NextPick(list, eligible, underCapacity).list, eligible);
  }

  lemma SameMembers(s: seq<int>, t: seq<int>)
    requires Elems(s) == Elems(t)
    ensures forall x :: x in s <==> x in t
  {
    forall x ensures x in s <==> x in t {
      assert x in Elems(s) <==> x in Elems(t);
    }
  }

  lemma FirstFreeIsIndex(list: seq<int>, underCapacity: set<int>)
    requires FirstFree(list, underCapacity) < |list|
    ensures IndexOf(list, list[FirstFree(list, underCapacity)]) == FirstFree(list, underCapacity)
  {
    var k := FirstFree(list, underCapacity);
    assert list[k] in list;
  }

  // ---------------------------------------------------------------- the service

  class OperatorRotationService {
    var list: seq<int>

    constructor ()
      ensures list == []
    {
      list := [];
    }

    method Sync(eligible: seq<int>)
      modifies this
      ensures list == Synced(old(list), eligible)
    {
      var current := list;
      var plan := PlanSync(current, eligible);
      WithoutNone(current);
      for i := 0 to |plan.toRemove|
        invariant list == Without(current, Elems(plan.toRemove[..i]))
      {
        // LREM key 0 id
        WithoutTwice(current, Elems(plan.toRemove[..i]), {plan.toRemove[i]});
        assert Elems(plan.toRemove[..i + 1]) == Elems(plan.toRemove[..i]) + {plan.toRemove[i]};
        list := Without(list, {plan.toRemove[i]});
      }
      assert plan.toRemove[..|plan.toRemove|] == plan.toRemove;
      ghost var kept := list;
      WithoutNone(kept);
      for i := |plan.toAdd| downto 0
        invariant list == Dedup(plan.toAdd[i..]) + Without(kept, Elems(plan.toAdd[i..]))
      {
        // LREM key 0 id; LPUSH key id
        PushStep(plan.toAdd[i], plan.toAdd[i + 1..], kept);
        assert [plan.toAdd[i]] + plan.toAdd[i + 1..] == plan.toAdd[i..];
        list := [plan.toAdd[i]] + Without(list, {plan.toAdd[i]});
      }
      assert plan.toAdd[0..] == plan.toAdd;
      WithoutTwice(current, Elems(plan.toRemove), Elems(plan.toAdd));
    }

    method RotateOnce() returns (moved: Option<int>)
      modifies this
      ensures list == Rotated(old(list))
      ensures moved == if old(list) == [] then None else Some(old(list)[0])
    {
      if list == [] {
        return None;
      }
      moved := Some(list[0]);
      list := list[1..] + [list[0]];
    }

    method GetQueueOrder() returns (ids: seq<int>)
      ensures ids == list
    {
      ids := list;
    }

    method PickNext(eligible: seq<int>, underCapacity: set<int>) returns (chosen: Option<int>)
      modifies this
      ensures Pick(chosen, list) == NextPick(old(list), eligible, underCapacity)
    {
      if eligible == [] {
        return None;
      }
      Sync(eligible);
      chosen := RotateUntilFree(underCapacity);
    }

    /** At most one hop per current entry: the list does not shrink while hopping. */
    method RotateUntilFree(underCapacity: set<int>) returns (chosen: Option<int>)
      modifies this
      ensures Pick(chosen, list) == PickFrom(old(list), underCapacity)
    {
      ghost var queue := list;
      var listLength := |list|;
      for i := 0 to listLength
        invariant list == Hopped(queue, i)
        invariant forall j :: 0 <= j < i ==> queue[j] !in underCapacity
      {
        HoppedIsCyclic(queue, i);
        var next := RotateOnce();
        if next == None {
          assert false;
        }
        if next.value in underCapacity {
          PickFromAt(queue, underCapacity, i);
          return next;
        }
      }
      HoppedIsCyclic(queue, |queue|);
      PickFromAt(queue, underCapacity, |queue|);
      chosen := None;
    }
  }

  /** Where the loop of `pickNext` stops. */
  lemma PickFromAt(queue: seq<int>, underCapacity: set<int>, k: nat)
    requires k <= |queue|
    requires forall j :: 0 <= j < k ==> queue[j] !in underCapacity
    requires k < |queue| ==> queue[k] in underCapacity
    ensures PickFrom(queue, underCapacity) ==
      if k == |queue| then Pick(None, queue) else Pick(Some(queue[k]), Hopped(queue, k + 1))
  {
    var f := FirstFree(queue, underCapacity);
    assert !(f < k);
  }

  lemma WithoutNone(s: seq<int>)
    ensures Without(s, Elems([])) == s
  {
    WithoutIsKeep(s, {}, Elems(s));
    KeepAll(s, Elems(s));
  }

  lemma PushStep(x: int, pushed: seq<int>, kept: seq<int>)
    ensures
      [x] + Without(Dedup(pushed) + Without(kept, Elems(pushed)), {x})
      == Dedup([x] + pushed) + Without(kept, Elems([x] + pushed))
  {
    WithoutAppend(Dedup(pushed), Without(kept, Elems(pushed)), {x});
    WithoutTwice(kept, Elems(pushed), {x});
    assert Elems([x] + pushed) == Elems(pushed) + {x};
    assert ([x] + pushed)[1..] == pushed;
  }
}
