/** What the category operations make of each row, when they are refused, and the order of the tree. */
module CategoryEffects {
  import opened Common
  import opened Forests
  import opened PostCategories

  // ---------------------------------------------------------------- the order of siblings

  /** Position of a row in the list; the length when it is not there. */
  function Position(rows: seq<Row>, id: Id): (k: nat)
    ensures k <= |rows|
    ensures k < |rows| ==> rows[k].id == id
  {
    if rows == [] || rows[0].id == id then 0 else 1 + Position(rows[1..], id)
  }

  /** Siblings stand in the order of the list, on every level. */
  ghost predicate InListOrder(trees: seq<Tree>, rows: seq<Row>)
    decreases trees
  {
    && (forall i, j :: 0 <= i < j < |trees| ==> Position(rows, trees[i].row.id) < Position(rows, trees[j].row.id))
    && (forall i :: 0 <= i < |trees| ==> InListOrder(trees[i].children, rows))
  }

  ghost predicate LevelsSorted(trees: seq<Tree>)
    decreases trees
  {
    && (forall i, j :: 0 <= i < j < |trees| ==> trees[i].row.category.sortOrder <= trees[j].row.category.sortOrder)
    && (forall i :: 0 <= i < |trees| ==> LevelsSorted(trees[i].children))
  }

  ghost predicate RowsSorted(rows: seq<Row>) {
    forall i, j :: 0 <= i < j < |rows| ==> rows[i].category.sortOrder <= rows[j].category.sortOrder
  }

  ghost predicate IdsDistinct(rows: seq<Row>) {
    forall i, j :: 0 <= i < j < |rows| ==> rows[i].id != rows[j].id
  }

  lemma TailIdsDistinct(rows: seq<Row>)
    requires rows != [] && IdsDistinct(rows)
    ensures IdsDistinct(rows[1..])
  {}

  lemma {:induction false} PositionOf(rows: seq<Row>, k: nat)
    requires k < |rows| && IdsDistinct(rows)
    ensures Position(rows, rows[k].id) == k
  {
    if k > 0 {
      PositionOf(rows[1..], k - 1);
    }
  }

  /** Of two rows of the tail the order in the whole list is the order in the tail. */
  lemma OrderInTail(rows: seq<Row>, a: Row, b: Row)
    requires rows != [] && a in rows[1..] && b in rows[1..]
    requires IdsDistinct(rows)
    requires Position(rows[1..], a.id) < Position(rows[1..], b.id)
    ensures Position(rows, a.id) < Position(rows, b.id) < |rows|
  {
    NotFirst(rows, a);
    NotFirst(rows, b);
  }

  lemma ChildInTail(rows: seq<Row>, parentId: Option<Id>, k: nat)
    requires rows != [] && k < |ChildRows(rows[1..], parentId)|
    ensures ChildRows(rows[1..], parentId)[k] in rows[1..]
  {
    ChildRowsMeaning(rows[1..], parentId);
    assert ChildRows(rows[1..], parentId)[k] in ChildRows(rows[1..], parentId);
  }

  /** The rows with a parent, in the order of the list. */
  lemma {:induction false} ChildRowsInOrder(rows: seq<Row>, parentId: Option<Id>, i: nat, j: nat)
    requires i < j < |ChildRows(rows, parentId)|
    requires IdsDistinct(rows)
    ensures Position(rows, ChildRows(rows, parentId)[i].id) < Position(rows, ChildRows(rows, parentId)[j].id) < |rows|
  {
    hide Position;
    hide IdsDistinct;
    var tail := ChildRows(rows[1..], parentId);
    TailIdsDistinct(rows);
    var shift := if rows[0].category.parentId == parentId then 1 else 0;
    assert ChildRows(rows, parentId) == if shift == 1 then [rows[0]] + tail else [] + tail;
    ChildInTail(rows, parentId, j - shift);
    if i >= shift {
      ChildInTail(rows, parentId, i - shift);
      ChildRowsInOrder(rows[1..], parentId, i - shift, j - shift);
      OrderInTail(rows, tail[i - shift], tail[j - shift]);
    } else {
      NotFirst(rows, tail[j - shift]);
      PositionOf(rows, 0);
    }
  }

  lemma NotFirst(rows: seq<Row>, r: Row)
    requires rows != [] && r in rows[1..]
    requires IdsDistinct(rows)
    ensures r.id != rows[0].id && Position(rows, r.id) == 1 + Position(rows[1..], r.id) < |rows|
  {
    var k :| 0 <= k < |rows[1..]| && rows[1..][k] == r;
    assert rows[k + 1] == r;
    PositionOf(rows[1..], k);
  }

  /** The nodes of a level are its rows, one each and in order, with their own subtrees. */
  lemma {:induction false} LevelIs(rows: seq<Row>, level: seq<Row>, parentId: Option<Id>, t: Table, rank: Rank)
    requires ListOf(t, rows) && Ranks(ParentsOf(t), rank)
    requires |level| <= |rows| && forall r :: r in level ==> r in rows && r.category.parentId == parentId
    ensures
      var trees := BuildEach(rows, level, parentId, t, rank);
      && |trees| == |level|
      && forall i :: 0 <= i < |level| ==>
           trees[i].row == level[i] && trees[i].children == BuildTree(rows, Some(level[i].id), t, rank)
    decreases |level|
  {
    if level != [] {
      LevelIs(rows, level[1..], parentId, t, rank);
    }
  }

  /** The built tree shows siblings in the order of the list, the roots and the children of every node. */
  lemma {:induction false} TreeInListOrder(rows: seq<Row>, parentId: Option<Id>, t: Table, rank: Rank)
    requires ListOf(t, rows) && Ranks(ParentsOf(t), rank)
    ensures InListOrder(BuildTree(rows, parentId, t, rank), rows)
    decreases Remaining(t, rank, parentId)
  {
    var level := ChildRows(rows, parentId);
    var trees := BuildTree(rows, parentId, t, rank);
    ChildRowsMeaning(rows, parentId);
    LevelIs(rows, level, parentId, t, rank);
    forall i, j | 0 <= i < j < |trees| ensures Position(rows, trees[i].row.id) < Position(rows, trees[j].row.id) {
      ChildRowsInOrder(rows, parentId, i, j);
    }
    forall i | 0 <= i < |trees| ensures InListOrder(trees[i].children, rows) {
      var ch := level[i];
      assert ch in level && RankedAt(ParentsOf(t), rank, ch.id);
      assert ch.id in Remaining(t, rank, parentId) && ch.id !in Remaining(t, rank, Some(ch.id));
      TreeInListOrder(rows, Some(ch.id), t, rank);
    }
  }

  /** Rows that arrive by sort order give levels by sort order. */
  lemma {:induction false} TreeIsSorted(rows: seq<Row>, parentId: Option<Id>, t: Table, rank: Rank)
    requires ListOf(t, rows) && Ranks(ParentsOf(t), rank) && RowsSorted(rows)
    ensures LevelsSorted(BuildTree(rows, parentId, t, rank))
    decreases Remaining(t, rank, parentId)
  {
    var level := ChildRows(rows, parentId);
    var trees := BuildTree(rows, parentId, t, rank);
    ChildRowsMeaning(rows, parentId);
    LevelIs(rows, level, parentId, t, rank);
    forall i, j | 0 <= i < j < |trees|
      ensures trees[i].row.category.sortOrder <= trees[j].row.category.sortOrder
    {
      ChildRowsInOrder(rows, parentId, i, j);
      RowAt(t, rows, level[i]);
      RowAt(t, rows, level[j]);
    }
    forall i | 0 <= i < |trees| ensures LevelsSorted(trees[i].children) {
      var ch := level[i];
      assert ch in level && RankedAt(ParentsOf(t), rank, ch.id);
      assert ch.id in Remaining(t, rank, parentId) && ch.id !in Remaining(t, rank, Some(ch.id));
      TreeIsSorted(rows, Some(ch.id), t, rank);
    }
  }

  lemma RowAt(t: Table, rows: seq<Row>, r: Row)
    requires ListOf(t, rows) && r in rows
    ensures Position(rows, r.id) < |rows| && rows[Position(rows, r.id)] == r
  {
    var k :| 0 <= k < |rows| && rows[k] == r;
    PositionOf(rows, k);
  }

  // ---------------------------------------------------------------- what becomes of a row

  /** A field that is sent takes the value sent, a field that is left out stays. */
  ghost predicate Takes<T>(field: Option<T>, before: T, after: T) {
    (field.Some? ==> after == field.value) && (field == None ==> after == before)
  }

  /**
    An accepted update sets exactly what was sent, the parent to none when it was sent as
    null; a deleted row is gone and its children are roots; a new row is as sent, 0 and
    active by default. All other rows stay as they were, also when an operation is refused.
  */
  lemma RowAfter(t: Table, op: Op, x: Id)
    requires IsForest(t) && x in t
    ensures x !in After(t, op) ==> op == DeleteOp(x)
    ensures op == DeleteOp(x) ==> x !in After(t, op)
    ensures op.DeleteOp? && op.id in t && x != op.id ==>
      After(t, op)[x] == if t[x].parentId == Some(op.id) then t[x].(parentId := None) else t[x]
    ensures op.UpdateOp? && op.id == x && Update(t, x, op.edit).Ok? ==>
      var before, after := t[x], After(t, op)[x];
      && Takes(op.edit.slug, before.slug, after.slug)
      && Takes(op.edit.sortOrder, before.sortOrder, after.sortOrder)
      && Takes(op.edit.isActive, before.isActive, after.isActive)
      && (op.edit.parent.Undefined? ==> after.parentId == before.parentId)
      && (op.edit.parent.Null? ==> after.parentId == None)
      && (op.edit.parent.To? ==> after.parentId == Some(op.edit.parent.id))
      && (op.edit.translations == None ==> after.translations == before.translations)
      && (op.edit.translations.Some? ==>
           forall l :: (if l in after.translations then Some(after.translations[l]) else None) == Latest(op.edit.translations.value, l))
    ensures !op.DeleteOp? && (op.id != x || (op.UpdateOp? && !Update(t, x, op.edit).Ok?)) ==>
      x in After(t, op) && After(t, op)[x] == t[x]
  {}

  lemma NewRow(t: Table, id: Id, d: Draft)
    requires IsForest(t) && id !in t
    ensures id in After(t, CreateOp(id, d)) <==> Create(t, id, d).Ok?
    ensures Create(t, id, d).Ok? ==>
      var row := After(t, CreateOp(id, d))[id];
      && row.slug == d.slug && row.parentId == d.parentId
      && Takes(d.sortOrder, 0, row.sortOrder) && Takes(d.isActive, true, row.isActive)
      && forall l :: (if l in row.translations then Some(row.translations[l]) else None) == Latest(d.translations, l)
  {}

  // ---------------------------------------------------------------- when an operation is refused

  ghost predicate SlugsDistinct(t: Table) {
    forall a, b :: a in t && b in t && a != b ==> t[a].slug != t[b].slug
  }

  ghost predicate Sound(t: Table) {
    IsForest(t) && SlugsDistinct(t)
  }

  /** A create is refused exactly when the table with the new row would be unsound, or a language is sent twice. */
  lemma CreateRefusedIff(t: Table, id: Id, d: Draft)
    requires Sound(t) && id !in t
    ensures Create(t, id, d).Ok? <==> Sound(t[id := Drafted(d)]) && OncePerLanguage(d.translations)
  {
    var u, p := t[id := Drafted(d)], ParentsOf(t);
    assert ParentsOf(u) == p[id := d.parentId];
    if d.parentId.Some? && d.parentId.value !in t {
      if IsForest(u) {
        PathUnfold(ParentsOf(u), id);
        NoLoop(ParentsOf(u), id);
      }
    } else {
      AddLeaf(p, id, d.parentId);
    }
    if SlugExists(t, d.slug, None) {
      var x :| x in t && Some(x) != None && t[x].slug == d.slug;
      assert u[x].slug == u[id].slug && x != id;
    }
  }

  /** No row of a forest is its own parent. */
  lemma NoLoop(p: Parents, id: Id)
    requires Forest(p) && id in p
    ensures p[id] != Some(id)
  {
    PathShrinks(p, id);
  }

  /** An update of a row that exists is refused exactly when it would leave an unsound table. */
  lemma UpdateRefusedIff(t: Table, id: Id, edit: Edit)
    requires Sound(t) && id in t
    ensures Update(t, id, edit).Ok? <==> Sound(t[id := Updated(t[id], edit)])
  {
    var u, p := t[id := Updated(t[id], edit)], ParentsOf(t);
    SlugRefused(t, id, edit);
    assert ParentsOf(u) == p[id := NewParent(t[id], edit.parent)];
    if edit.parent.To? {
      ParentRefused(t, id, edit.parent.id);
    } else if edit.parent.Null? {
      ReparentKeepsForest(p, id, None);
    } else {
      assert ParentsOf(u) == p;
    }
  }

  lemma SlugRefused(t: Table, id: Id, edit: Edit)
    requires SlugsDistinct(t) && id in t
    ensures SlugsDistinct(t[id := Updated(t[id], edit)]) <==>
      !(AskedSlugExists(t, id, edit.slug) || (edit.slug == Some("") && SlugExists(t, "", Some(id))))
  {
    var u := t[id := Updated(t[id], edit)];
    if edit.slug.Some? && SlugExists(t, edit.slug.value, Some(id)) {
      var x :| x in t && Some(x) != Some(id) && t[x].slug == edit.slug.value;
      assert u[x].slug == u[id].slug;
    } else {
      forall a, b | a in u && b in u && a != b ensures u[a].slug != u[b].slug {
        if edit.slug.Some? && (a == id || b == id) {
          var other := if a == id then b else a;
          assert other in t && Some(other) != Some(id);
        }
      }
    }
  }

  lemma ParentRefused(t: Table, id: Id, parent: Id)
    requires IsForest(t) && id in t
    ensures Forest(ParentsOf(t)[id := Some(parent)]) <==> parent != id && parent in t && !Circular(t, id, parent)
  {
    var p := ParentsOf(t);
    var q := p[id := Some(parent)];
    if parent !in t {
      if Forest(q) { PathUnfold(q, id); }
    } else if id in Path(p, parent) {
      ReparentBelowItself(p, id, parent);
      PathShrinks(p, id);
    } else {
      ReparentKeepsForest(p, id, Some(parent));
      PathShrinks(p, parent);
    }
  }

  /** What each refusal says. */
  lemma ErrorMeans(t: Table, op: Op)
    requires IsForest(t) && (op.CreateOp? ==> op.id !in t)
    ensures op.DeleteOp? ==> (Delete(t, op.id) == Failed(NotFound) <==> op.id !in t)
    ensures op.UpdateOp? && Update(t, op.id, op.edit) == Failed(NotFound) ==>
      op.id !in t || (op.edit.parent.To? && op.edit.parent.id !in t)
    ensures op.UpdateOp? && Update(t, op.id, op.edit) == Failed(Duplicate) ==>
      op.id in t && op.edit.slug.Some? && SlugExists(t, op.edit.slug.value, Some(op.id))
    ensures op.UpdateOp? && Update(t, op.id, op.edit) == Failed(BadRequest) ==>
      op.id in t && op.edit.parent.To? && !Forest(ParentsOf(t)[op.id := Some(op.edit.parent.id)])
    ensures op.CreateOp? && Create(t, op.id, op.draft) == Failed(Duplicate) ==> SlugExists(t, op.draft.slug, None)
    ensures op.CreateOp? && Create(t, op.id, op.draft) == Failed(NotFound) ==>
      op.draft.parentId.Some? && op.draft.parentId.value !in t
    ensures op.CreateOp? ==> Create(t, op.id, op.draft) != Failed(BadRequest)
  {
    if op.UpdateOp? && op.id in t && op.edit.parent.To? {
      ParentRefused(t, op.id, op.edit.parent.id);
    }
  }
}
