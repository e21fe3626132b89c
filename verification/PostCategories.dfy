/**
  Post categories (post-category.service.ts and its aggregate repository): the cycle check,
  the re-rooting of children on delete, and the tree built from a list of rows.
*/
module PostCategories {
  import opened Common
  import opened Forests

  type LanguageId = int

  datatype Translation = Translation(slug: string, name: string, description: Option<string>)

  datatype Category = Category(
    slug: string,
    parentId: Option<Id>,
    sortOrder: int,
    isActive: bool,
    translations: map<LanguageId, Translation>)

  type Table = map<Id, Category>

  datatype Error = NotFound | Duplicate | BadRequest | UniqueViolation

  datatype Outcome = Ok(next: Table) | Failed(error: Error)

  /** A field of an update: left out, set to null, or set. */
  datatype ParentField = Undefined | Null | To(id: Id)

  /** What an update says about one language. */
  datatype Incoming = Incoming(language: LanguageId, translation: Translation)

  datatype Edit = Edit(
    slug: Option<string>,
    parent: ParentField,
    sortOrder: Option<int>,
    isActive: Option<bool>,
    translations: Option<seq<Incoming>>)

  function ParentsOf(t: Table): Parents {
    map id | id in t :: t[id].parentId
  }

  ghost predicate IsForest(t: Table) {
    Forest(ParentsOf(t))
  }

  predicate SlugExists(t: Table, slug: string, except: Option<Id>) {
    exists id :: id in t && Some(id) != except && t[id].slug == slug
  }

  // ---------------------------------------------------------------- the cycle check

  /** `isDescendantOf`: strictly below. */
  function IsDescendantOf(t: Table, id: Id, ancestor: Id, ghost rank: Rank): bool
    requires Ranks(ParentsOf(t), rank) && id in t
    decreases if id in rank then rank[id] else 0
  {
    assert RankedAt(ParentsOf(t), rank, id);
    match t[id].parentId
    case None => false
    case Some(up) => up == ancestor || IsDescendantOf(t, up, ancestor, rank)
  }

  lemma {:induction false} IsDescendantMeaning(t: Table, id: Id, ancestor: Id, rank: Rank)
    requires Ranks(ParentsOf(t), rank) && id in t
    ensures IsForest(t)
    ensures IsDescendantOf(t, id, ancestor, rank) <==> ancestor != id && ancestor in Path(ParentsOf(t), id)
    decreases if id in rank then rank[id] else 0
  {
    var p := ParentsOf(t);
    assert RankedAt(p, rank, id);
    PathUnfold(p, id);
    PathShrinks(p, id);
    if t[id].parentId.Some? {
      var up := t[id].parentId.value;
      IsDescendantMeaning(t, up, ancestor, rank);
      PathShrinks(p, up);
      if id in Path(p, up) {
        PathPrefix(p, up, id);
      }
    }
  }

  // ---------------------------------------------------------------- handlers

  /** What a create sends. */
  datatype Draft = Draft(
    slug: string,
    parentId: Option<Id>,
    sortOrder: Option<int>,
    isActive: Option<bool>,
    translations: seq<Incoming>)

  predicate OncePerLanguage(ts: seq<Incoming>) {
    forall i, j :: 0 <= i < j < |ts| ==> ts[i].language != ts[j].language
  }

  /** Inserting two translations for a language violates their unique index, and nothing is created. */
  function Create(t: Table, id: Id, d: Draft): Outcome {
    if SlugExists(t, d.slug, None) then Failed(Duplicate)
    else if d.parentId.Some? && d.parentId.value !in t then Failed(NotFound)
    else if !OncePerLanguage(d.translations) then Failed(UniqueViolation)
    else Ok(t[id := Drafted(d)])
  }

  function Drafted(d: Draft): Category {
    Category(d.slug, d.parentId, Or(d.sortOrder, 0), Or(d.isActive, true), Translated(d.translations))
  }

  function Or<T>(field: Option<T>, current: T): T {
    if field.Some? then field.value else current
  }

  function NewParent(c: Category, parent: ParentField): Option<Id> {
    match parent case Undefined => c.parentId case Null => None case To(p) => Some(p)
  }

  /** The last of the incoming translations for a language. */
  function Latest(ts: seq<Incoming>, language: LanguageId): Option<Translation> {
    if ts == [] then None
    else if ts[|ts| - 1].language == language then Some(ts[|ts| - 1].translation)
    else Latest(ts[..|ts| - 1], language)
  }

  /** Replaces the translations: languages that are not sent go, the others get what was sent last. */
  function Translated(ts: seq<Incoming>): (r: map<LanguageId, Translation>)
    ensures forall language :: language in r <==> Latest(ts, language).Some?
    ensures forall language :: language in r ==> Latest(ts, language) == Some(r[language])
  {
    if ts == [] then map[]
    else Translated(ts[..|ts| - 1])[ts[|ts| - 1].language := ts[|ts| - 1].translation]
  }

  function Updated(c: Category, edit: Edit): Category {
    Category(
      Or(edit.slug, c.slug),
      NewParent(c, edit.parent),
      Or(edit.sortOrder, c.sortOrder),
      Or(edit.isActive, c.isActive),
      if edit.translations.Some? then Translated(edit.translations.value) else c.translations)
  }

  /** The new parent is below `id`; only looked at when the parent exists. */
  ghost predicate Circular(t: Table, id: Id, parent: Id)
    requires IsForest(t)
  {
    parent in t && parent != id && id in Path(ParentsOf(t), parent)
  }

  /** The new slug is asked about first; the empty one is not. */
  predicate AskedSlugExists(t: Table, id: Id, slug: Option<string>)
    requires id in t
  {
    slug.Some? && slug.value != "" && slug.value != t[id].slug && SlugExists(t, slug.value, Some(id))
  }

  ghost function Update(t: Table, id: Id, edit: Edit): Outcome
    requires IsForest(t)
  {
    if id !in t then Failed(NotFound)
    else if AskedSlugExists(t, id, edit.slug) then Failed(Duplicate)
    else if edit.parent == To(id) then Failed(BadRequest)
    else if edit.parent.To? && edit.parent.id !in t then Failed(NotFound)
    else if edit.parent.To? && Circular(t, id, edit.parent.id) then Failed(BadRequest)
    else if edit.slug == Some("") && SlugExists(t, "", Some(id)) then Failed(UniqueViolation)
    else Ok(t[id := Updated(t[id], edit)])
  }

  /** Both statements of the delete transaction: children become roots, then the row goes. */
  function Orphaned(t: Table, id: Id): Table {
    map x | x in t :: if t[x].parentId == Some(id) then t[x].(parentId := None) else t[x]
  }

  function Delete(t: Table, id: Id): Outcome {
    if id !in t then Failed(NotFound) else Ok(Orphaned(t, id) - {id})
  }

  datatype Op =
    | CreateOp(id: Id, draft: Draft)
    | UpdateOp(id: Id, edit: Edit)
    | DeleteOp(id: Id)

  /** On a table that is no forest the walks need not end; nothing is said about what an operation does there. */
  ghost function After(t: Table, op: Op): Table {
    if !IsForest(t) then t
    else
      var outcome := match op
        case CreateOp(id, d) => Create(t, id, d)
        case UpdateOp(id, edit) => Update(t, id, edit)
        case DeleteOp(id) => Delete(t, id);
      if outcome.Ok? then outcome.next else t
  }

  // ---------------------------------------------------------------- the forest is kept

  /** Making every child of a row a root keeps the forest: any part of the parents may be cut. */
  lemma CutKeepsForest(p: Parents, q: Parents)
    requires Forest(p) && q.Keys <= p.Keys
    requires forall id :: id in q ==> q[id] == None || (q[id] == p[id] && q[id].value in q)
    ensures Forest(q)
  {
    var rank :| Ranks(p, rank);
    forall id | id in q ensures RankedAt(q, rank, id) {
      assert RankedAt(p, rank, id);
    }
    assert Ranks(q, rank);
  }

  lemma UpdateKeepsForest(t: Table, id: Id, edit: Edit)
    requires IsForest(t) && Update(t, id, edit).Ok?
    ensures IsForest(Update(t, id, edit).next)
  {
    var p := ParentsOf(t);
    var c := Updated(t[id], edit);
    PathUnfold(p, id);
    if edit.parent.Undefined? && c.parentId.Some? && id in Path(p, c.parentId.value) {
      PathPrefix(p, c.parentId.value, id);
      PathShrinks(p, id);
    }
    ReparentKeepsForest(p, id, c.parentId);
    assert ParentsOf(t[id := c]) == p[id := c.parentId];
  }

  lemma DeleteKeepsForest(t: Table, id: Id)
    requires IsForest(t) && id in t
    ensures IsForest(Orphaned(t, id) - {id})
  {
    var p, q := ParentsOf(t), ParentsOf(Orphaned(t, id) - {id});
    forall x | x in q ensures q[x] == None || (q[x] == p[x] && q[x].value in q) {
      PathUnfold(p, x);
    }
    CutKeepsForest(p, q);
  }

  lemma OpKeepsForest(t: Table, op: Op)
    requires IsForest(t) && (op.CreateOp? ==> op.id !in t)
    ensures IsForest(After(t, op))
  {
    match op {
      case CreateOp(id, d) =>
        if Create(t, id, d).Ok? {
          AddLeaf(ParentsOf(t), id, d.parentId);
          assert ParentsOf(t[id := Drafted(d)]) == ParentsOf(t)[id := d.parentId];
        }
      case UpdateOp(id, edit) =>
        if Update(t, id, edit).Ok? { UpdateKeepsForest(t, id, edit); }
      case DeleteOp(id) =>
        if id in t { DeleteKeepsForest(t, id); }
    }
  }

  ghost predicate ValidRun(t: Table, ops: seq<Op>)
    decreases |ops|
  {
    ops != [] ==> (ops[0].CreateOp? ==> ops[0].id !in t) && ValidRun(After(t, ops[0]), ops[1..])
  }

  ghost function Run(t: Table, ops: seq<Op>): Table
    requires ValidRun(t, ops)
    decreases |ops|
  {
    if ops == [] then t else Run(After(t, ops[0]), ops[1..])
  }

  /** Over every run of creates, updates and deletes the categories stay an acyclic forest. */
  lemma {:induction false} RunKeepsForest(t: Table, ops: seq<Op>)
    requires IsForest(t) && ValidRun(t, ops)
    ensures IsForest(Run(t, ops))
    decreases |ops|
  {
    if ops != [] {
      OpKeepsForest(t, ops[0]);
      RunKeepsForest(After(t, ops[0]), ops[1..]);
    }
  }

  /** So it is in every table that starts empty, and `buildTree` ends on any list of its rows. */
  lemma ReachableIsForest(ops: seq<Op>) returns (rank: Rank)
    requires ValidRun(map[], ops)
    ensures Ranks(ParentsOf(Run(map[], ops)), rank)
  {
    EmptyForest();
    assert ParentsOf(map[]) == map[];
    RunKeepsForest(map[], ops);
    rank :| Ranks(ParentsOf(Run(map[], ops)), rank);
  }

  /** The check is exact: an existing parent is refused as circular or as the row itself if and only if accepting it would close a circle. */
  lemma CycleCheckIsExact(t: Table, id: Id, edit: Edit)
    requires IsForest(t) && id in t && edit.parent.To? && edit.parent.id in t
    requires !AskedSlugExists(t, id, edit.slug)
    ensures Update(t, id, edit) == Failed(BadRequest) <==> !IsForest(t[id := Updated(t[id], edit)])
  {
    var p, parent := ParentsOf(t), edit.parent.id;
    assert ParentsOf(t[id := Updated(t[id], edit)]) == p[id := Some(parent)];
    if id in Path(p, parent) {
      ReparentBelowItself(p, id, parent);
    } else {
      ReparentKeepsForest(p, id, Some(parent));
    }
    PathShrinks(p, parent);
  }

  // ---------------------------------------------------------------- the tree

  /** A row of the list that `findAll` returned. */
  datatype Row = Row(id: Id, category: Category)

  datatype Tree = Node(row: Row, children: seq<Tree>)

  function ChildRows(rows: seq<Row>, parentId: Option<Id>): seq<Row> {
    if rows == [] then []
    else (if rows[0].category.parentId == parentId then [rows[0]] else []) + ChildRows(rows[1..], parentId)
  }

  /** The list holds rows of the table, each at most once; it need not hold all of them. */
  ghost predicate ListOf(t: Table, rows: seq<Row>) {
    && (forall i :: 0 <= i < |rows| ==> rows[i].id in t && rows[i].category == t[rows[i].id])
    && (forall i, j :: 0 <= i < j < |rows| ==> rows[i].id != rows[j].id)
  }

  ghost function ListedIds(rows: seq<Row>): set<Id> {
    set i | 0 <= i < |rows| :: rows[i].id
  }

  /** The rows a call of `buildTree` for this parent can still meet. */
  ghost function Remaining(t: Table, rank: Rank, parentId: Option<Id>): set<Id> {
    set x | x in t && x in rank &&
      (parentId.Some? && parentId.value in rank ==> rank[x] > rank[parentId.value])
  }

  lemma {:induction false} ChildRowsMeaning(rows: seq<Row>, parentId: Option<Id>)
    ensures forall r :: r in ChildRows(rows, parentId) <==> r in rows && r.category.parentId == parentId
    ensures |ChildRows(rows, parentId)| <= |rows|
    ensures forall t :: ListOf(t, rows) ==> ListOf(t, ChildRows(rows, parentId))
  {
    if rows != [] {
      ChildRowsMeaning(rows[1..], parentId);
      assert rows == [rows[0]] + rows[1..];
      forall t | ListOf(t, rows) ensures ListOf(t, ChildRows(rows, parentId)) {
        var tail := ChildRows(rows[1..], parentId);
        assert ListOf(t, rows[1..]);
        forall i | 0 <= i < |tail| ensures tail[i].id != rows[0].id {
          assert tail[i] in tail && tail[i] in rows[1..];
        }
      }
    }
  }

  /** `buildTree`: recursion over the list once per node; acyclicity is why it ends. */
  function BuildTree(rows: seq<Row>, parentId: Option<Id>, ghost t: Table, ghost rank: Rank): seq<Tree>
    requires ListOf(t, rows) && Ranks(ParentsOf(t), rank)
    decreases Remaining(t, rank, parentId), |rows| + 1
  {
    ChildRowsMeaning(rows, parentId);
    BuildEach(rows, ChildRows(rows, parentId), parentId, t, rank)
  }

  function BuildEach(rows: seq<Row>, level: seq<Row>, parentId: Option<Id>, ghost t: Table, ghost rank: Rank): (r: seq<Tree>)
    requires ListOf(t, rows) && Ranks(ParentsOf(t), rank)
    requires |level| <= |rows| && forall r :: r in level ==> r in rows && r.category.parentId == parentId
    decreases Remaining(t, rank, parentId), |level|
  {
    if level == [] then []
    else
      assert level[0] in level && RankedAt(ParentsOf(t), rank, level[0].id);
      assert level[0].id in Remaining(t, rank, parentId) && level[0].id !in Remaining(t, rank, Some(level[0].id));
      [Node(level[0], BuildTree(rows, Some(level[0].id), t, rank))] + BuildEach(rows, level[1..], parentId, t, rank)
  }

  /** How often a node for `id` hangs under `under` in a forest whose roots hang under `above`. */
  function Occurs(trees: seq<Tree>, above: Option<Id>, id: Id, under: Option<Id>): nat {
    if trees == [] then 0
    else
      (if trees[0].row.id == id && above == under then 1 else 0)
      + Occurs(trees[0].children, Some(trees[0].row.id), id, under)
      + Occurs(trees[1..], above, id, under)
  }

  /** `id` is listed, and so is everything on the way from `id` up to, but not including, `top`. */
  ghost predicate Hangs(t: Table, rank: Rank, listed: set<Id>, top: Option<Id>, id: Id)
    requires Ranks(ParentsOf(t), rank)
    decreases if id in rank then rank[id] else 0
  {
    && id in t && id in listed
    && (t[id].parentId == top
        || (t[id].parentId.Some? && RankedAt(ParentsOf(t), rank, id) && Hangs(t, rank, listed, top, t[id].parentId.value)))
  }

  /** `id` is the row `ch`, or hangs below it. */
  ghost predicate AtOrUnder(t: Table, rank: Rank, listed: set<Id>, ch: Id, id: Id)
    requires Ranks(ParentsOf(t), rank)
  {
    ch == id || Hangs(t, rank, listed, Some(ch), id)
  }

  /** What hangs below `top` is at or under one of its listed children. */
  lemma {:induction false} HangsSplit(t: Table, rank: Rank, listed: set<Id>, top: Option<Id>, id: Id)
    requires Ranks(ParentsOf(t), rank) && listed <= t.Keys
    ensures Hangs(t, rank, listed, top, id) <==>
      id in listed && exists ch :: ch in listed && t[ch].parentId == top && AtOrUnder(t, rank, listed, ch, id)
    decreases if id in rank then rank[id] else 0
  {
    if id in listed {
      assert RankedAt(ParentsOf(t), rank, id);
      if t[id].parentId == top {
        assert AtOrUnder(t, rank, listed, id, id);
      } else if t[id].parentId.Some? {
        var up: Id := t[id].parentId.value;
        HangsSplit(t, rank, listed, top, up);
        forall ch | ch in listed && t[ch].parentId == top
          ensures AtOrUnder(t, rank, listed, ch, id) <==> up in listed && AtOrUnder(t, rank, listed, ch, up)
        {
          assert Hangs(t, rank, listed, Some(ch), id) <==>
            t[id].parentId == Some(ch) || Hangs(t, rank, listed, Some(ch), up);
        }
      }
    }
  }

  lemma {:induction false} HangsIsAbove(t: Table, rank: Rank, listed: set<Id>, a: Id, id: Id)
    requires Ranks(ParentsOf(t), rank) && a in t && Hangs(t, rank, listed, Some(a), id)
    ensures IsForest(t) && a in Path(ParentsOf(t), id) && |Path(ParentsOf(t), a)| < |Path(ParentsOf(t), id)|
    decreases if id in rank then rank[id] else 0
  {
    var p := ParentsOf(t);
    assert RankedAt(p, rank, id);
    PathUnfold(p, id);
    PathShrinks(p, id);
    PathShrinks(p, t[id].parentId.value);
    if t[id].parentId != Some(a) {
      HangsIsAbove(t, rank, listed, a, t[id].parentId.value);
    }
  }

  /** Two rows of one walk at the same level are the same row. */
  lemma SameLevel(p: Parents, id: Id, a: Id, b: Id)
    requires Forest(p) && id in p && a in Path(p, id) && b in Path(p, id)
    requires a in p && b in p && |Path(p, a)| == |Path(p, b)|
    ensures a == b
  {
    PathPrefix(p, id, a);
    PathPrefix(p, id, b);
    PathShrinks(p, a);
    PathShrinks(p, b);
  }

  /** A row is at or under at most one child of a parent. */
  lemma OneBranch(t: Table, rank: Rank, listed: set<Id>, a: Id, b: Id, id: Id)
    requires Ranks(ParentsOf(t), rank) && a in t && b in t && id in t && t[a].parentId == t[b].parentId
    requires AtOrUnder(t, rank, listed, a, id) && AtOrUnder(t, rank, listed, b, id)
    ensures a == b
  {
    var p := ParentsOf(t);
    PathShrinks(p, id);
    if a != id { HangsIsAbove(t, rank, listed, a, id); }
    if b != id { HangsIsAbove(t, rank, listed, b, id); }
    PathUnfold(p, a);
    PathUnfold(p, b);
    SameLevel(p, id, a, b);
  }

  ghost predicate Expected(t: Table, id: Id, under: Option<Id>) {
    id in t && t[id].parentId == under
  }

  /** Nodes below `top`: each hanging row once, under its own parent, and nothing else. */
  lemma {:induction false} TreeOccurs(rows: seq<Row>, top: Option<Id>, t: Table, rank: Rank, id: Id, under: Option<Id>)
    requires ListOf(t, rows) && Ranks(ParentsOf(t), rank)
    ensures Occurs(BuildTree(rows, top, t, rank), top, id, under) ==
      if Hangs(t, rank, ListedIds(rows), top, id) && Expected(t, id, under) then 1 else 0
    decreases Remaining(t, rank, top), |rows| + 1
  {
    var level := ChildRows(rows, top);
    ChildRowsMeaning(rows, top);
    LevelOccurs(rows, level, top, t, rank, id, under);
    HangsSplit(t, rank, ListedIds(rows), top, id);
    if Hangs(t, rank, ListedIds(rows), top, id) {
      var ch :| ch in ListedIds(rows) && t[ch].parentId == top && AtOrUnder(t, rank, ListedIds(rows), ch, id);
      var i :| 0 <= i < |rows| && rows[i].id == ch;
      assert rows[i] in level && AtOrUnder(t, rank, ListedIds(rows), rows[i].id, id);
    }
  }

  lemma {:induction false} LevelOccurs(rows: seq<Row>, level: seq<Row>, top: Option<Id>, t: Table, rank: Rank, id: Id, under: Option<Id>)
    requires ListOf(t, rows) && Ranks(ParentsOf(t), rank) && ListOf(t, level)
    requires |level| <= |rows| && forall r :: r in level ==> r in rows && r.category.parentId == top
    ensures Occurs(BuildEach(rows, level, top, t, rank), top, id, under) ==
      if id in ListedIds(rows) && Expected(t, id, under)
         && SomeBranch(level, t, rank, ListedIds(rows), id)
      then 1 else 0
    decreases Remaining(t, rank, top), |level|
  {
    if level != [] {
      var listed := ListedIds(rows);
      var ch := level[0];
      assert ch in level && RankedAt(ParentsOf(t), rank, ch.id);
      assert ch.id in Remaining(t, rank, top) && ch.id !in Remaining(t, rank, Some(ch.id));
      TreeOccurs(rows, Some(ch.id), t, rank, id, under);
      LevelOccurs(rows, level[1..], top, t, rank, id, under);
      assert ch.id in listed by {
        var i :| 0 <= i < |rows| && rows[i] == ch;
      }
      if AtOrUnder(t, rank, listed, ch.id, id) {
        OnlyThisBranch(level, t, rank, listed, id);
      }
      BranchSplit(level, t, rank, listed, id);
      OccursCons(ch, BuildTree(rows, Some(ch.id), t, rank), BuildEach(rows, level[1..], top, t, rank), top, id, under);
    }
  }

  ghost predicate SomeBranch(level: seq<Row>, t: Table, rank: Rank, listed: set<Id>, id: Id)
    requires Ranks(ParentsOf(t), rank)
  {
    exists r :: r in level && AtOrUnder(t, rank, listed, r.id, id)
  }

  lemma BranchSplit(level: seq<Row>, t: Table, rank: Rank, listed: set<Id>, id: Id)
    requires Ranks(ParentsOf(t), rank) && level != []
    ensures SomeBranch(level, t, rank, listed, id) <==>
      AtOrUnder(t, rank, listed, level[0].id, id) || SomeBranch(level[1..], t, rank, listed, id)
  {
    assert level == [level[0]] + level[1..];
  }

  lemma OccursCons(row: Row, children: seq<Tree>, rest: seq<Tree>, above: Option<Id>, id: Id, under: Option<Id>)
    ensures Occurs([Node(row, children)] + rest, above, id, under) ==
      (if row.id == id && above == under then 1 else 0)
      + Occurs(children, Some(row.id), id, under) + Occurs(rest, above, id, under)
  {
    assert ([Node(row, children)] + rest)[1..] == rest;
  }

  /** If the first row of a level has `id` at or under it, no other has, and only one of "at" and "under" holds. */
  lemma OnlyThisBranch(level: seq<Row>, t: Table, rank: Rank, listed: set<Id>, id: Id)
    requires ListOf(t, level) && Ranks(ParentsOf(t), rank) && level != [] && level[0].id in listed
    requires forall r :: r in level ==> r.category.parentId == level[0].category.parentId
    requires AtOrUnder(t, rank, listed, level[0].id, id)
    ensures id in listed
    ensures !(level[0].id == id && Hangs(t, rank, listed, Some(level[0].id), id))
    ensures forall r :: r in level[1..] ==> !AtOrUnder(t, rank, listed, r.id, id)
  {
    if level[0].id == id && Hangs(t, rank, listed, Some(id), id) {
      HangsIsAbove(t, rank, listed, id, id);
    }
    forall r | r in level[1..] ensures !AtOrUnder(t, rank, listed, r.id, id) {
      var i :| 0 <= i < |level[1..]| && level[1..][i] == r;
      assert level[i + 1] == r && r in level && level[0] in level;
      if AtOrUnder(t, rank, listed, r.id, id) {
        OneBranch(t, rank, listed, level[0].id, r.id, id);
      }
    }
  }

  /** Hanging from the top means that the whole walk to the root is listed. */
  lemma {:induction false} HangsFromTop(t: Table, rank: Rank, listed: set<Id>, id: Id)
    requires Ranks(ParentsOf(t), rank) && id in t
    ensures IsForest(t)
    ensures Hangs(t, rank, listed, None, id) <==> forall a :: a in Path(ParentsOf(t), id) ==> a in listed
    decreases if id in rank then rank[id] else 0
  {
    var p := ParentsOf(t);
    assert RankedAt(p, rank, id);
    PathUnfold(p, id);
    PathShrinks(p, id);
    assert id in Path(p, id);
    if t[id].parentId.Some? {
      HangsFromTop(t, rank, listed, t[id].parentId.value);
    }
  }

  /**
    The tree built from any list of rows of an acyclic table holds each listed category whose
    whole ancestor chain is listed exactly once, under its own parent, and nothing else.
  */
  lemma TreeIsExact(rows: seq<Row>, t: Table, rank: Rank, id: Id, under: Option<Id>)
    requires ListOf(t, rows) && Ranks(ParentsOf(t), rank)
    ensures IsForest(t)
    ensures Occurs(BuildTree(rows, None, t, rank), None, id, under) ==
      if id in t && t[id].parentId == under && (forall a :: a in Path(ParentsOf(t), id) ==> a in ListedIds(rows))
      then 1 else 0
  {
    TreeOccurs(rows, None, t, rank, id, under);
    if id in t {
      HangsFromTop(t, rank, ListedIds(rows), id);
    }
  }

  // ---------------------------------------------------------------- the stored rows

  lemma {:induction false} SentAreTranslated(ts: seq<Incoming>)
    ensures Translated(ts).Keys == set i | 0 <= i < |ts| :: ts[i].language
  {
    if ts != [] {
      SentAreTranslated(ts[..|ts| - 1]);
      var sent := set i | 0 <= i < |ts| :: ts[i].language;
      assert forall i :: 0 <= i < |ts| - 1 ==> ts[..|ts| - 1][i] == ts[i];
      assert ts[|ts| - 1].language in sent;
    }
  }

  class PostCategoryStore {
    var table: Table

    constructor ()
      ensures table == map[]
    {
      table := map[];
    }

    method CreateCategory(id: Id, d: Draft) returns (failed: Option<Error>)
      requires id !in table
      modifies this
      ensures failed == None ==> Create(old(table), id, d) == Ok(table)
      ensures failed.Some? ==> Create(old(table), id, d) == Failed(failed.value) && table == old(table)
    {
      if SlugExists(table, d.slug, None) {
        return Some(Duplicate);
      }
      if d.parentId.Some? && d.parentId.value !in table {
        return Some(NotFound);
      }
      var translations := map[];
      for i := 0 to |d.translations|
        invariant table == old(table)
        invariant OncePerLanguage(d.translations[..i])
        invariant translations == Translated(d.translations[..i])
      {
        var t := d.translations[i];
        assert d.translations[..i + 1][..i] == d.translations[..i];
        SentAreTranslated(d.translations[..i]);
        if t.language in translations {
          return Some(UniqueViolation);
        }
        translations := translations[t.language := t.translation];
      }
      assert d.translations[..|d.translations|] == d.translations;
      table := table[id := Category(d.slug, d.parentId, Or(d.sortOrder, 0), Or(d.isActive, true), translations)];
      failed := None;
    }

    /** `rank` only shows that the recursive check ends. */
    method UpdateCategory(id: Id, edit: Edit, ghost rank: Rank) returns (failed: Option<Error>)
      requires Ranks(ParentsOf(table), rank)
      modifies this
      ensures IsForest(old(table))
      ensures failed == None ==> Update(old(table), id, edit) == Ok(table)
      ensures failed.Some? ==> Update(old(table), id, edit) == Failed(failed.value) && table == old(table)
    {
      if id !in table {
        return Some(NotFound);
      }
      if AskedSlugExists(table, id, edit.slug) {
        return Some(Duplicate);
      }
      if edit.parent.To? {
        if edit.parent.id == id {
          return Some(BadRequest);
        }
        if edit.parent.id !in table {
          return Some(NotFound);
        }
        IsDescendantMeaning(table, edit.parent.id, id, rank);
        if IsDescendantOf(table, edit.parent.id, id, rank) {
          return Some(BadRequest);
        }
      }
      if edit.slug == Some("") && SlugExists(table, "", Some(id)) {
        return Some(UniqueViolation);
      }
      var c := table[id];
      var translations := c.translations;
      if edit.translations.Some? {
        translations := ReplaceTranslations(translations, edit.translations.value);
      }
      table := table[id := Category(Or(edit.slug, c.slug), NewParent(c, edit.parent),
                                    Or(edit.sortOrder, c.sortOrder), Or(edit.isActive, c.isActive), translations)];
      failed := None;
    }

    /** Deletes the languages that are not sent, then upserts those that are. */
    method ReplaceTranslations(current: map<LanguageId, Translation>, ts: seq<Incoming>)
      returns (r: map<LanguageId, Translation>)
      ensures r == Translated(ts)
    {
      var sent := set i | 0 <= i < |ts| :: ts[i].language;
      r := map language | language in current && language in sent :: current[language];
      for i := 0 to |ts|
        invariant r.Keys == (current.Keys * sent) + Translated(ts[..i]).Keys
        invariant forall language :: language in Translated(ts[..i]) ==> r[language] == Translated(ts[..i])[language]
      {
        assert ts[..i + 1][..i] == ts[..i];
        r := r[ts[i].language := ts[i].translation];
      }
      assert ts[..|ts|] == ts;
      SentAreTranslated(ts);
    }

    method DeleteCategory(id: Id) returns (failed: Option<Error>)
      modifies this
      ensures failed == None ==> Delete(old(table), id) == Ok(table)
      ensures failed.Some? ==> Delete(old(table), id) == Failed(failed.value) && table == old(table)
    {
      if id !in table {
        return Some(NotFound);
      }
      table := map x | x in table :: if table[x].parentId == Some(id) then table[x].(parentId := None) else table[x];
      table := table - {id};
      failed := None;
    }
  }
}
