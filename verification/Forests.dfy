/**
  Parent pointers of rows in a table, as media folders and post categories have them:
  when they form a forest, what the walk to the root is, and how re-parenting changes it.
*/
module Forests {
  import opened Common

  type Id = int

  /** Every row's parent. */
  type Parents = map<Id, Option<Id>>

  /** Strictly decreasing towards the roots; a witness that no walk can go round in a circle. */
  type Rank = map<Id, int>

  ghost predicate RankedAt(p: Parents, rank: Rank, id: Id)
    requires id in p
  {
    && id in rank && rank[id] >= 0
    && (p[id].Some? ==> p[id].value in p && p[id].value in rank && rank[p[id].value] < rank[id])
  }

  ghost predicate Ranks(p: Parents, rank: Rank) {
    forall id :: id in p ==> RankedAt(p, rank, id)
  }

  /** Acyclic, and no row names a parent that does not exist. */
  ghost predicate Forest(p: Parents) {
    exists rank :: Ranks(p, rank)
  }

  /** The rows from the root down to `id`. */
  ghost function RankedPath(p: Parents, rank: Rank, id: Id): seq<Id>
    requires Ranks(p, rank) && id in p
    decreases rank[id]
  {
    (if p[id] == None then [] else RankedPath(p, rank, p[id].value)) + [id]
  }

  ghost function Path(p: Parents, id: Id): seq<Id>
    requires Forest(p) && id in p
  {
    var rank :| Ranks(p, rank);
    RankedPath(p, rank, id)
  }

  lemma {:induction false} RankIrrelevant(p: Parents, a: Rank, b: Rank, id: Id)
    requires Ranks(p, a) && Ranks(p, b) && id in p
    ensures RankedPath(p, a, id) == RankedPath(p, b, id)
    decreases a[id]
  {
    if p[id].Some? {
      RankIrrelevant(p, a, b, p[id].value);
    }
  }

  lemma PathIsRanked(p: Parents, rank: Rank, id: Id)
    requires Ranks(p, rank) && id in p
    ensures Path(p, id) == RankedPath(p, rank, id)
  {
    var other :| Ranks(p, other) && Path(p, id) == RankedPath(p, other, id);
    RankIrrelevant(p, rank, other, id);
  }

  /** The equation that determines `Path`. */
  lemma PathUnfold(p: Parents, id: Id)
    requires Forest(p) && id in p
    ensures p[id] == None ==> Path(p, id) == [id]
    ensures p[id].Some? ==> p[id].value in p && Path(p, id) == Path(p, p[id].value) + [id]
  {
    var rank :| Ranks(p, rank);
    PathIsRanked(p, rank, id);
    if p[id].Some? {
      PathIsRanked(p, rank, p[id].value);
    }
  }

  /** Walking up shortens the path; every walk to the root terminates. */
  lemma PathShrinks(p: Parents, id: Id)
    requires Forest(p) && id in p
    ensures |Path(p, id)| >= 1 && Path(p, id)[|Path(p, id)| - 1] == id
    ensures p[id].Some? ==> |Path(p, p[id].value)| == |Path(p, id)| - 1
  {
    PathUnfold(p, id);
  }

  /** Every row of a walk is a row of the table, and the walk to it is a prefix. */
  lemma {:induction false} PathPrefix(p: Parents, id: Id, a: Id)
    requires Forest(p) && id in p && a in Path(p, id)
    ensures a in p && Path(p, a) <= Path(p, id)
    decreases |Path(p, id)|
  {
    PathUnfold(p, id);
    PathShrinks(p, id);
    if a != id {
      PathPrefix(p, p[id].value, a);
    }
  }

  // ---------------------------------------------------------------- building and cutting

  lemma EmptyForest()
    ensures Forest(map[])
  {
    assert Ranks(map[], map[]);
  }

  /** A new row under an existing parent, or at the top. */
  lemma AddLeaf(p: Parents, id: Id, parent: Option<Id>)
    requires Forest(p) && id !in p && (parent.Some? ==> parent.value in p)
    ensures Forest(p[id := parent])
    ensures forall x :: x in p ==> Path(p[id := parent], x) == Path(p, x)
  {
    var rank :| Ranks(p, rank);
    assert parent.Some? ==> RankedAt(p, rank, parent.value);
    var top := if parent.Some? then rank[parent.value] + 1 else 0;
    var q := p[id := parent];
    forall x | x in q ensures RankedAt(q, rank[id := top], x) {
      assert x in p ==> RankedAt(p, rank, x);
    }
    assert Ranks(q, rank[id := top]);
    forall x | x in p ensures Path(q, x) == Path(p, x) {
      SamePath(p, q, x);
    }
  }

  /** A row without children can go. */
  lemma RemoveLeaf(p: Parents, id: Id)
    requires Forest(p) && id in p && forall x :: x in p ==> p[x] != Some(id)
    ensures Forest(p - {id})
    ensures forall x :: x in p && x != id ==> Path(p - {id}, x) == Path(p, x)
  {
    var rank :| Ranks(p, rank);
    forall x | x in p - {id} ensures RankedAt(p - {id}, rank, x) {
      assert RankedAt(p, rank, x);
    }
    assert Ranks(p - {id}, rank);
    forall x | x in p && x != id ensures Path(p - {id}, x) == Path(p, x) {
      SamePath(p - {id}, p, x);
    }
  }

  /** Tables that agree on the rows of one of them give those rows the same path. */
  lemma {:induction false} SamePath(p: Parents, q: Parents, x: Id)
    requires Forest(p) && Forest(q) && x in p
    requires forall y :: y in p ==> y in q && q[y] == p[y]
    ensures Path(q, x) == Path(p, x)
    decreases |Path(p, x)|
  {
    PathUnfold(p, x);
    PathUnfold(q, x);
    PathShrinks(p, x);
    if p[x].Some? {
      SamePath(p, q, p[x].value);
    }
  }

  // ---------------------------------------------------------------- re-parenting

  /** The part of the path below `id`, for a row below (or at) `id`. */
  ghost function Below(p: Parents, id: Id, x: Id): seq<Id>
    requires Forest(p) && x in p && id in Path(p, x)
  {
    PathPrefix(p, x, id);
    Path(p, x)[|Path(p, id)|..]
  }

  /** Moving `id` under a row that is not below it keeps the forest. */
  lemma ReparentKeepsForest(p: Parents, id: Id, parent: Option<Id>)
    requires Forest(p) && id in p
    requires parent.Some? ==> parent.value in p && id !in Path(p, parent.value)
    ensures Forest(p[id := parent])
  {
    var rank :| Ranks(p, rank);
    assert parent.Some? ==> RankedAt(p, rank, parent.value);
    assert forall x :: x in p ==> RankedAt(p, rank, x);
    var lift := if parent.Some? then rank[parent.value] + 1 else 0;
    var q := p[id := parent];
    var lifted: Rank := map x | x in p :: if id in Path(p, x) then rank[x] + lift else rank[x];
    forall x | x in q ensures RankedAt(q, lifted, x) {
      assert RankedAt(p, rank, x);
      PathUnfold(p, x);
      PathShrinks(p, id);
      if x == id {
        assert id in Path(p, id);
      }
    }
    assert Ranks(q, lifted);
  }

  /** Moving `id` under a row below it (or itself) always closes a circle. */
  lemma ReparentBelowItself(p: Parents, id: Id, parent: Id)
    requires Forest(p) && id in p && parent in p && id in Path(p, parent)
    ensures !Forest(p[id := Some(parent)])
  {
    var q := p[id := Some(parent)];
    if Forest(q) {
      StillBelow(p, q, id, parent);
      PathPrefix(q, parent, id);
      PathShrinks(q, id);
    }
  }

  /** The walk up to `id` does not look at `id`'s own parent. */
  lemma {:induction false} StillBelow(p: Parents, q: Parents, id: Id, x: Id)
    requires Forest(p) && Forest(q) && x in p && id in Path(p, x)
    requires q.Keys == p.Keys && forall y :: y in p && y != id ==> q[y] == p[y]
    ensures id in Path(q, x)
    decreases |Path(p, x)|
  {
    PathUnfold(p, x);
    PathUnfold(q, x);
    PathShrinks(p, x);
    if x != id {
      StillBelow(p, q, id, p[x].value);
    }
  }

  /** Rows that are not below the moved row keep their path. */
  lemma {:induction false} ReparentElsewhere(p: Parents, id: Id, parent: Option<Id>, x: Id)
    requires Forest(p) && Forest(p[id := parent]) && id in p && x in p && id !in Path(p, x)
    ensures Path(p[id := parent], x) == Path(p, x)
    decreases |Path(p, x)|
  {
    PathUnfold(p, x);
    PathUnfold(p[id := parent], x);
    PathShrinks(p, x);
    if p[x].Some? {
      ReparentElsewhere(p, id, parent, p[x].value);
    }
  }

  /** Rows below the moved row keep the part of their path below it. */
  lemma {:induction false} ReparentBelow(p: Parents, id: Id, parent: Option<Id>, x: Id)
    requires Forest(p) && Forest(p[id := parent]) && id in p && x in p && id in Path(p, x)
    ensures Path(p[id := parent], x) == Path(p[id := parent], id) + Below(p, id, x)
    decreases |Path(p, x)|
  {
    PathUnfold(p, x);
    PathUnfold(p[id := parent], x);
    PathShrinks(p, x);
    if x == id {
      assert Below(p, id, x) == [];
    } else {
      var up := p[x].value;
      ReparentBelow(p, id, parent, up);
      PathPrefix(p, up, id);
      assert Below(p, id, x) == Below(p, id, up) + [x];
    }
  }
}
