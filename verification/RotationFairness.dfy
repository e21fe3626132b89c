/**
  Fairness of the rotation over whole runs of calls: how long an operator with spare
  capacity can wait for a turn, and how turns alternate.
*/
module RotationFairness {
  import opened Common
  import opened OperatorRotation

  /** The two calls the gateway makes on the rotation; each is run to completion. */
  datatype Call =
    | SyncCall(eligible: seq<int>)
    | PickCall(eligible: seq<int>, underCapacity: set<int>)

  function After(list: seq<int>, call: Call): seq<int> {
    match call
    case SyncCall(eligible) => Synced(list, eligible)
    case PickCall(eligible, under) => NextPick(list, eligible, under).list
  }

  function Outcome(list: seq<int>, call: Call): Option<int> {
    match call
    case SyncCall(_) => None
    case PickCall(eligible, under) => NextPick(list, eligible, under).chosen
  }

  /** Who each call of the run picks. */
  function Outcomes(list: seq<int>, calls: seq<Call>): (r: seq<Option<int>>)
    ensures |r| == |calls|
    decreases |calls|
  {
    if calls == [] then []
    else [Outcome(list, calls[0])] + Outcomes(After(list, calls[0]), calls[1..])
  }

  function Picks(calls: seq<Call>): nat {
    if calls == [] then 0 else (if calls[0].PickCall? then 1 else 0) + Picks(calls[1..])
  }

  /** How many operators the run inserts at the front of the list. */
  function Insertions(list: seq<int>, calls: seq<Call>): nat
    decreases |calls|
  {
    if calls == [] then 0
    else |Newcomers(list, calls[0].eligible)| + Insertions(After(list, calls[0]), calls[1..])
  }

  /** `x` is eligible in every call and under capacity in every pick. */
  ghost predicate AlwaysFree(calls: seq<Call>, x: int) {
    forall i :: 0 <= i < |calls| ==> Free(calls[i], x)
  }

  ghost predicate AlwaysEligible(calls: seq<Call>, y: int) {
    forall i :: 0 <= i < |calls| ==> y in calls[i].eligible
  }

  // ---------------------------------------------------------------- one call

  lemma {:induction false} KeepIndexBound(s: seq<int>, ids: set<int>, x: int)
    requires x in s && x in ids
    ensures x in Keep(s, ids)
    ensures IndexOf(Keep(s, ids), x) <= IndexOf(s, x)
  {
    if s[0] == x {
    } else {
      KeepIndexBound(s[1..], ids, x);
      if s[0] in ids {
        assert ([s[0]] + Keep(s[1..], ids))[1..] == Keep(s[1..], ids);
      }
    }
  }

  lemma {:induction false} KeepIndexOrder(s: seq<int>, ids: set<int>, x: int, y: int)
    requires x in s && y in s && x in ids && y in ids
    requires IndexOf(s, x) < IndexOf(s, y)
    ensures x in Keep(s, ids) && y in Keep(s, ids)
    ensures IndexOf(Keep(s, ids), x) < IndexOf(Keep(s, ids), y)
  {
    KeepIndexBound(s, ids, x);
    KeepIndexBound(s, ids, y);
    if s[0] != x {
      KeepIndexOrder(s[1..], ids, x, y);
      if s[0] in ids {
        assert ([s[0]] + Keep(s[1..], ids))[1..] == Keep(s[1..], ids);
      }
    }
  }

  /** A sync puts at most its newcomers ahead of a member that stays, and keeps the order of two members that stay. */
  lemma SyncPosition(list: seq<int>, eligible: seq<int>, x: int)
    requires x in list && x in eligible
    ensures x in Synced(list, eligible)
    ensures IndexOf(Synced(list, eligible), x) <= |Newcomers(list, eligible)| + IndexOf(list, x)
    ensures forall y :: y in list && y in eligible && IndexOf(list, x) < IndexOf(list, y) ==>
      y in Synced(list, eligible) && IndexOf(Synced(list, eligible), x) < IndexOf(Synced(list, eligible), y)
  {
    var front, back := Newcomers(list, eligible), Keep(list, Elems(eligible));
    SyncedShape(list, eligible);
    NotNewcomer(list, eligible, x);
    KeepIndexBound(list, Elems(eligible), x);
    IndexOfAppend(front, back, x);
    forall y | y in list && y in eligible && IndexOf(list, x) < IndexOf(list, y)
      ensures y in front + back && IndexOf(front + back, x) < IndexOf(front + back, y)
    {
      NotNewcomer(list, eligible, y);
      KeepIndexOrder(list, Elems(eligible), x, y);
      IndexOfAppend(front, back, y);
    }
  }

  lemma NotNewcomer(list: seq<int>, eligible: seq<int>, x: int)
    requires x in list
    ensures x !in Newcomers(list, eligible)
  {
    DedupShape(Without(eligible, Elems(list)));
    WithoutElems(eligible, Elems(list));
    assert x !in Elems(Newcomers(list, eligible));
  }

  /** Hopping over `k` entries ahead of `x` moves `x` forward by `k`. */
  lemma HopPosition(list: seq<int>, k: nat, x: int)
    requires x in list && k <= IndexOf(list, x)
    ensures x in Hopped(list, k)
    ensures IndexOf(Hopped(list, k), x) == IndexOf(list, x) - k
  {
    HoppedIsCyclic(list, k);
    assert list == list[..k] + list[k..];
    assert x !in list[..k] by {
      assert list[..k] == list[..IndexOf(list, x)][..k];
    }
    IndexOfAppend(list[..k], list[k..], x);
    IndexOfPrefix(list[k..], list[..k], x);
  }

  /** While `x` is free, a pick of somebody else brings `x` at least one place closer. */
  lemma PickPosition(list: seq<int>, eligible: seq<int>, underCapacity: set<int>, x: int)
    requires x in list && x in eligible && x in underCapacity
    requires NextPick(list, eligible, underCapacity).chosen != Some(x)
    ensures
      var queue := Synced(list, eligible);
      var after := NextPick(list, eligible, underCapacity).list;
      var k := FirstFree(queue, underCapacity);
      && x in queue && k < IndexOf(queue, x) && x in after
      && after == Hopped(queue, k + 1)
      && IndexOf(after, x) == IndexOf(queue, x) - (k + 1)
      && IndexOf(after, x) < |Newcomers(list, eligible)| + IndexOf(list, x)
  {
    var queue := Synced(list, eligible);
    SyncPosition(list, eligible, x);
    var k := FirstFree(queue, underCapacity);
    assert queue[IndexOf(queue, x)] == x;
    assert k < IndexOf(queue, x);
    HopPosition(queue, k + 1, x);
  }

  ghost predicate Free(call: Call, x: int) {
    x in call.eligible && (call.PickCall? ==> x in call.underCapacity)
  }

  /** One call, as seen by a listed operator who is free: its turn, or one place closer per pick. */
  lemma Closer(list: seq<int>, call: Call, x: int)
    requires x in list && Free(call, x)
    requires Outcome(list, call) != Some(x)
    ensures x in After(list, call)
    ensures IndexOf(After(list, call), x) + (if call.PickCall? then 1 else 0)
         <= IndexOf(list, x) + |Newcomers(list, call.eligible)|
  {
    SyncPosition(list, call.eligible, x);
    if call.PickCall? {
      PickPosition(list, call.eligible, call.underCapacity, x);
    }
  }

  /** A pick among two listed operators, the one ahead being free. */
  lemma PickAhead(list: seq<int>, eligible: seq<int>, underCapacity: set<int>, x: int, y: int)
    requires x in list && y in list && IndexOf(list, x) < IndexOf(list, y)
    requires x in eligible && y in eligible && x in underCapacity
    ensures
      var p := NextPick(list, eligible, underCapacity);
      && p.chosen != Some(y)
      && (p.chosen != Some(x) ==> x in p.list && y in p.list && IndexOf(p.list, x) < IndexOf(p.list, y))
  {
    var queue := Synced(list, eligible);
    SyncPosition(list, eligible, x);
    var k := FirstFree(queue, underCapacity);
    assert queue[IndexOf(queue, x)] == x;
    assert k <= IndexOf(queue, x) < IndexOf(queue, y);
    if NextPick(list, eligible, underCapacity).chosen != Some(x) {
      PickPosition(list, eligible, underCapacity, x);
      HopPosition(queue, k + 1, y);
    }
  }

  /** One call, as seen by a free operator and somebody behind it who stays eligible. */
  lemma StillAhead(list: seq<int>, call: Call, x: int, y: int)
    requires x in list && y in list && IndexOf(list, x) < IndexOf(list, y)
    requires Free(call, x) && y in call.eligible
    ensures Outcome(list, call) != Some(y)
    ensures Outcome(list, call) != Some(x) ==>
      && x in After(list, call) && y in After(list, call)
      && IndexOf(After(list, call), x) < IndexOf(After(list, call), y)
  {
    if call.PickCall? {
      PickAhead(list, call.eligible, call.underCapacity, x, y);
    } else {
      SyncPosition(list, call.eligible, x);
    }
  }

  // ---------------------------------------------------------------- whole runs

  /**
    Bounded waiting. A run that leaves a listed operator waiting, although free throughout,
    has at most as many picks as the operator's position plus the operators inserted ahead of
    it. One more pick, and it would have had its turn.
  */
  lemma {:induction false} BoundedWaiting(list: seq<int>, calls: seq<Call>, x: int)
    requires x in list && AlwaysFree(calls, x)
    requires Some(x) !in Outcomes(list, calls)
    ensures Picks(calls) <= IndexOf(list, x) + Insertions(list, calls)
    decreases |calls|
  {
    if calls != [] {
      var next := After(list, calls[0]);
      assert Outcomes(list, calls)[0] == Outcome(list, calls[0]);
      assert Outcomes(list, calls)[1..] == Outcomes(next, calls[1..]);
      Closer(list, calls[0], x);
      BoundedWaiting(next, calls[1..], x);
    }
  }

  /** While both stay eligible and `x` is free, nobody behind `x` is picked before `x`. */
  lemma {:induction false} AheadGoesFirst(list: seq<int>, calls: seq<Call>, x: int, y: int)
    requires x in list && y in list && IndexOf(list, x) < IndexOf(list, y)
    requires AlwaysFree(calls, x) && AlwaysEligible(calls, y)
    requires Some(x) !in Outcomes(list, calls)
    ensures Some(y) !in Outcomes(list, calls)
    decreases |calls|
  {
    if calls != [] {
      var next := After(list, calls[0]);
      assert Outcomes(list, calls) == [Outcome(list, calls[0])] + Outcomes(next, calls[1..]);
      assert Free(calls[0], x) && y in calls[0].eligible;
      StillAhead(list, calls[0], x, y);
      assert Outcomes(list, calls)[0] == Outcome(list, calls[0]);
      assert Outcomes(list, calls)[1..] == Outcomes(next, calls[1..]);
      AheadGoesFirst(next, calls[1..], x, y);
    }
  }

  /**
    No second turn: from the moment `y` is picked, and as long as some other listed operator
    `x` stays free without having had a turn, `y` is not picked again. (The statement holds
    of every prefix of a run, so a second turn of `y` is preceded by a turn of `x`.)
  */
  lemma NoSecondTurn(list: seq<int>, first: Call, calls: seq<Call>, x: int, y: int)
    requires Distinct(list)
    requires first.PickCall? && Outcome(list, first) == Some(y)
    requires x != y && x in first.eligible
    requires AlwaysFree(calls, x) && AlwaysEligible(calls, y)
    requires Some(x) !in Outcomes(After(list, first), calls)
    ensures Some(y) !in Outcomes(After(list, first), calls)
  {
    PickNextMeaning(list, first.eligible, first.underCapacity);
    var after := After(list, first);
    assert x in Elems(after) && y in Elems(after);
    LastHasLargestIndex(after, x);
    AheadGoesFirst(after, calls, x, y);
  }

  lemma LastHasLargestIndex(list: seq<int>, x: int)
    requires Distinct(list) && x in list && x != list[|list| - 1]
    ensures IndexOf(list, x) < IndexOf(list, list[|list| - 1])
  {
    var last := list[|list| - 1];
    assert IndexOf(list, last) == |list| - 1;
  }
}
