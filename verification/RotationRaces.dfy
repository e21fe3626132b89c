/**
  The rotation list under interleaving. A `sync` reads the list in one step and writes it in
  a later one; any number of them may be in flight, and hops of concurrent picks may land
  anywhere in between.
*/
module RotationRaces {
  import opened Common
  import opened OperatorRotation

  datatype Race = Race(list: seq<int>, inFlight: map<nat, Plan>)

  datatype Step =
    | Read(caller: nat, eligible: seq<int>)
    | Write(caller: nat)
    | Hop

  function Next(r: Race, step: Step): Race {
    match step
    case Read(caller, eligible) => r.(inFlight := r.inFlight[caller := PlanSync(r.list, eligible)])
    case Write(caller) =>
      if caller in r.inFlight
      then Race(Written(r.list, r.inFlight[caller]), r.inFlight - {caller})
      else r
    case Hop => r.(list := Rotated(r.list))
  }

  function Run(r: Race, steps: seq<Step>): Race
    decreases |steps|
  {
    if steps == [] then r else Run(Next(r, steps[0]), steps[1..])
  }

  /** No interleaving of reads, writes and hops ever duplicates an operator. */
  lemma {:induction false} NeverDuplicates(r: Race, steps: seq<Step>)
    requires Distinct(r.list)
    ensures Distinct(Run(r, steps).list)
    decreases |steps|
  {
    if steps != [] {
      match steps[0] {
        case Read(_, _) =>
        case Write(caller) =>
          if caller in r.inFlight {
            WrittenDistinct(r.list, r.inFlight[caller]);
          }
        case Hop =>
          RotatedShape(r.list);
      }
      NeverDuplicates(Next(r, steps[0]), steps[1..]);
    }
  }

  ghost predicate OnlyHops(steps: seq<Step>) {
    forall i :: 0 <= i < |steps| ==> steps[i].Hop?
  }

  lemma {:induction false} HopsKeepMembers(r: Race, hops: seq<Step>)
    requires OnlyHops(hops)
    ensures Elems(Run(r, hops).list) == Elems(r.list)
    ensures Run(r, hops).inFlight == r.inFlight
    decreases |hops|
  {
    if hops != [] {
      RotatedShape(r.list);
      assert OnlyHops(hops[1..]);
      HopsKeepMembers(Next(r, hops[0]), hops[1..]);
    }
  }

  lemma {:induction false} RunAppend(r: Race, before: seq<Step>, after: seq<Step>)
    ensures Run(r, before + after) == Run(Run(r, before), after)
    decreases |before|
  {
    if before == [] {
      assert before + after == after;
    } else {
      assert (before + after)[1..] == before[1..] + after;
      RunAppend(Next(r, before[0]), before[1..], after);
    }
  }

  /**
    A sync with only hops between its read and its write leaves exactly its eligible set:
    newcomers first in their given order, survivors in the order the hops left them in.
  */
  lemma SyncAcrossHops(r: Race, caller: nat, eligible: seq<int>, hops: seq<Step>)
    requires OnlyHops(hops)
    ensures
      var hopped := Run(r, hops).list;
      var result := Run(r, [Read(caller, eligible)] + hops + [Write(caller)]).list;
      && result == Newcomers(r.list, eligible) + Keep(hopped, Elems(eligible))
      && Elems(result) == Elems(eligible)
  {
    var steps := [Read(caller, eligible)] + hops + [Write(caller)];
    var reading := Next(r, Read(caller, eligible));
    assert steps[0] == Read(caller, eligible) && steps[1..] == hops + [Write(caller)];
    RunAppend(reading, hops, [Write(caller)]);
    HopsKeepMembers(reading, hops);
    HopsIgnoreFlights(r, reading, hops);
    var at := Run(reading, hops);
    assert Run(at, [Write(caller)]) == Next(at, Write(caller));
    WrittenToSameMembers(r.list, at.list, eligible);
  }

  lemma {:induction false} HopsIgnoreFlights(a: Race, b: Race, hops: seq<Step>)
    requires OnlyHops(hops) && a.list == b.list
    ensures Run(a, hops).list == Run(b, hops).list
    decreases |hops|
  {
    if hops != [] {
      assert OnlyHops(hops[1..]);
      HopsIgnoreFlights(Next(a, hops[0]), Next(b, hops[0]), hops[1..]);
    }
  }
}
