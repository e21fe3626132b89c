/**
  The media folder tree and the files in it (media-folders.service.ts, media.service.ts) over
  their two tables, with the database constraints that the handlers rely on: the parent foreign key, and the unique index on
  (slug, parent), which PostgreSQL does not apply to folders without a parent.
*/
module MediaFolders {
  import opened Common
  import opened Forests
  import opened FolderPaths

  const MAX_DEPTH := 5

  datatype Folder = Folder(name: string, slug: string, scope: string, parentId: Option<Id>)

  datatype Media = Media(folderId: Option<Id>, deleted: bool)

  datatype State = State(folders: map<Id, Folder>, media: map<int, Media>)

  datatype Error = InvalidFile | NotFound | Conflict | BadRequest | ForeignKeyViolation | UniqueViolation

  /** Slug chains to move on disk and in the media table; only for folders with scope "cms". */
  datatype Relocation = Relocation(oldChain: seq<string>, newChain: seq<string>)

  datatype Outcome = Ok(next: State, relocation: Option<Relocation>) | Failed(error: Error)

  function ParentsOf(folders: map<Id, Folder>): Parents {
    map id | id in folders :: folders[id].parentId
  }

  ghost predicate IsForest(folders: map<Id, Folder>) {
    Forest(ParentsOf(folders))
  }

  ghost function PathOf(folders: map<Id, Folder>, id: Id): seq<Id>
    requires IsForest(folders) && id in folders
  {
    Path(ParentsOf(folders), id)
  }

  function SlugsOf(folders: map<Id, Folder>, path: seq<Id>): seq<string>
    requires Elems(path) <= folders.Keys
  {
    seq(|path|, i requires 0 <= i < |path| => assert path[i] in Elems(path); folders[path[i]].slug)
  }

  lemma PathInTable(folders: map<Id, Folder>, id: Id)
    requires IsForest(folders) && id in folders
    ensures Elems(PathOf(folders, id)) <= folders.Keys
  {
    forall a | a in PathOf(folders, id) ensures a in folders {
      PathPrefix(ParentsOf(folders), id, a);
    }
  }

  /** The slugs from the root down to a folder; no slugs for a folder that does not exist. */
  ghost function SlugChain(folders: map<Id, Folder>, id: Id): seq<string>
    requires IsForest(folders)
  {
    if id !in folders then []
    else
      PathInTable(folders, id);
      SlugsOf(folders, PathOf(folders, id))
  }

  /** Level of a folder; the top level is 1. */
  ghost function Level(folders: map<Id, Folder>, id: Id): nat
    requires IsForest(folders) && id in folders
  {
    |PathOf(folders, id)|
  }

  // ---------------------------------------------------------------- handlers

  /** `assertDepth` passes: a parent that does not exist does too. */
  ghost predicate DepthOk(folders: map<Id, Folder>, parentId: Option<Id>)
    requires IsForest(folders)
  {
    parentId.Some? && parentId.value in folders ==> Level(folders, parentId.value) < MAX_DEPTH
  }

  /** A sibling, other than `except`, with the slug. */
  predicate SlugTaken(folders: map<Id, Folder>, slug: string, parentId: Option<Id>, except: Option<Id>) {
    exists id :: id in folders && Some(id) != except && folders[id].slug == slug && folders[id].parentId == parentId
  }

  predicate ParentExists(folders: map<Id, Folder>, parentId: Option<Id>) {
    parentId.Some? ==> parentId.value in folders
  }

  ghost function Create(s: State, id: Id, name: string, slug: string, scope: string, parentId: Option<Id>): Outcome
    requires IsForest(s.folders)
  {
    if !DepthOk(s.folders, parentId) then Failed(BadRequest)
    else if SlugTaken(s.folders, slug, parentId, None) then Failed(Conflict)
    else if !ParentExists(s.folders, parentId) then Failed(ForeignKeyViolation)
    else Ok(s.(folders := s.folders[id := Folder(name, slug, scope, parentId)]), None)
  }

  ghost function Relocated(s: State, t: State, id: Id): Option<Relocation>
    requires IsForest(s.folders) && IsForest(t.folders) && id in s.folders
  {
    if s.folders[id].scope == "cms"
    then Some(Relocation(SlugChain(s.folders, id), SlugChain(t.folders, id)))
    else None
  }

  function WithSlug(s: State, id: Id, name: string, slug: string): State
    requires id in s.folders
  {
    s.(folders := s.folders[id := s.folders[id].(name := name, slug := slug)])
  }

  function WithParent(s: State, id: Id, parentId: Option<Id>): State
    requires id in s.folders
  {
    s.(folders := s.folders[id := s.folders[id].(parentId := parentId)])
  }

  lemma WithSlugParents(s: State, id: Id, name: string, slug: string)
    requires id in s.folders
    ensures ParentsOf(WithSlug(s, id, name, slug).folders) == ParentsOf(s.folders)
  {}

  lemma WithParentParents(s: State, id: Id, parentId: Option<Id>)
    requires id in s.folders
    ensures ParentsOf(WithParent(s, id, parentId).folders) == ParentsOf(s.folders)[id := parentId]
  {}

  /** Every chain a rename reports is the one recomputed from the parents afterwards. */
  ghost function Rename(s: State, id: Id, name: string, slug: string): Outcome
    requires IsForest(s.folders)
  {
    if id !in s.folders then Failed(NotFound)
    else if SlugTaken(s.folders, slug, s.folders[id].parentId, Some(id)) then Failed(Conflict)
    else
      WithSlugParents(s, id, name, slug);
      var t := WithSlug(s, id, name, slug);
      Ok(t, Relocated(s, t, id))
  }

  ghost predicate IsBelow(folders: map<Id, Folder>, ancestor: Id, id: Id)
    requires IsForest(folders)
  {
    id in folders && ancestor in PathOf(folders, id)
  }

  /** The update of `move` itself: a foreign key and a unique index may refuse it. */
  function MoveError(s: State, id: Id, target: Option<Id>): Option<Error>
    requires id in s.folders
  {
    if !ParentExists(s.folders, target) then Some(ForeignKeyViolation)
    else if target.Some? && SlugTaken(s.folders, s.folders[id].slug, target, Some(id)) then Some(UniqueViolation)
    else None
  }

  ghost function Move(s: State, id: Id, target: Option<Id>): Outcome
    requires IsForest(s.folders)
  {
    if id !in s.folders then Failed(NotFound)
    else if target == Some(id) then Failed(BadRequest)
    else if target.Some? && IsBelow(s.folders, id, target.value) then Failed(BadRequest)
    else if !DepthOk(s.folders, target) then Failed(BadRequest)
    else if MoveError(s, id, target).Some? then Failed(MoveError(s, id, target).value)
    else
      WithParentParents(s, id, target);
      ReparentKeepsForest(ParentsOf(s.folders), id, target);
      var t := WithParent(s, id, target);
      Ok(t, Relocated(s, t, id))
  }

  predicate HoldsFiles(s: State, id: Id) {
    exists m :: m in s.media && s.media[m] == Media(Some(id), false)
  }

  predicate HasSubFolders(s: State, id: Id) {
    exists x :: x in s.folders && s.folders[x].parentId == Some(id)
  }

  function Deleted(s: State, id: Id): State {
    State(s.folders - {id},
          map m | m in s.media :: if s.media[m].folderId == Some(id) then s.media[m].(folderId := None) else s.media[m])
  }

  function Delete(s: State, id: Id): Outcome {
    if id !in s.folders then Failed(NotFound)
    else if HoldsFiles(s, id) then Failed(Conflict)
    else if HasSubFolders(s, id) then Failed(Conflict)
    else Ok(Deleted(s, id), None)
  }

  // ---------------------------------------------------------------- files

  function WithFile(s: State, file: int, m: Media): State {
    s.(media := s.media[file := m])
  }

  /** A folder that is named must exist: its breadcrumbs are asked for. */
  function Upload(s: State, file: int, folderId: Option<Id>): Outcome {
    if !ParentExists(s.folders, folderId) then Failed(NotFound)
    else Ok(WithFile(s, file, Media(folderId, false)), None)
  }

  /** `findById` does not see trashed files. */
  predicate Visible(s: State, file: int) {
    file in s.media && !s.media[file].deleted
  }

  /** The folder of a metadata update: left out, or set (to none, for null). */
  datatype FolderField = Undefined | To(folderId: Option<Id>)

  function UpdateMedia(s: State, file: int, field: FolderField): Outcome {
    if !Visible(s, file) then Failed(NotFound)
    else if field.Undefined? || field.folderId == s.media[file].folderId then Ok(s, None)
    else if !ParentExists(s.folders, field.folderId) then Failed(NotFound)
    else Ok(WithFile(s, file, s.media[file].(folderId := field.folderId)), None)
  }

  function Trash(s: State, file: int): Outcome {
    if !Visible(s, file) then Failed(NotFound) else Ok(WithFile(s, file, s.media[file].(deleted := true)), None)
  }

  /** Clears the mark on whatever row there is. */
  function Restore(s: State, file: int): Outcome {
    if file !in s.media then Failed(NotFound) else Ok(WithFile(s, file, s.media[file].(deleted := false)), None)
  }

  function Purge(s: State, file: int): Outcome {
    if file !in s.media then Failed(NotFound) else Ok(s.(media := s.media - {file}), None)
  }

  // ---------------------------------------------------------------- what every run keeps

  datatype Op =
    | CreateOp(id: Id, name: string, slug: string, scope: string, parentId: Option<Id>)
    | RenameOp(id: Id, name: string, slug: string)
    | MoveOp(id: Id, target: Option<Id>)
    | DeleteOp(id: Id)
    | UploadOp(file: int, folderId: Option<Id>)
    | UpdateMediaOp(file: int, field: FolderField)
    | TrashOp(file: int)
    | RestoreOp(file: int)
    | PurgeOp(file: int)

  ghost function Apply(s: State, op: Op): Outcome
    requires IsForest(s.folders)
  {
    match op
    case CreateOp(id, name, slug, scope, parentId) => Create(s, id, name, slug, scope, parentId)
    case RenameOp(id, name, slug) => Rename(s, id, name, slug)
    case MoveOp(id, target) => Move(s, id, target)
    case DeleteOp(id) => Delete(s, id)
    case UploadOp(file, folderId) => Upload(s, file, folderId)
    case UpdateMediaOp(file, field) => UpdateMedia(s, file, field)
    case TrashOp(file) => Trash(s, file)
    case RestoreOp(file) => Restore(s, file)
    case PurgeOp(file) => Purge(s, file)
  }

  /** On a table that is no forest the walks need not end; nothing is said about what an operation does there. */
  ghost function After(s: State, op: Op): State {
    if IsForest(s.folders) && Apply(s, op).Ok? then Apply(s, op).next else s
  }

  /** Ids come from a sequence, and slugs from `toSlug`. */
  ghost predicate Possible(s: State, op: Op) {
    && (op.CreateOp? ==> op.id !in s.folders && SlugShaped(op.slug))
    && (op.RenameOp? ==> SlugShaped(op.slug))
    && (op.UploadOp? ==> op.file !in s.media)
  }

  ghost predicate Siblings(folders: map<Id, Folder>, a: Id, b: Id)
    requires a in folders && b in folders
  {
    a != b && folders[a].parentId == folders[b].parentId
  }

  ghost predicate Valid(s: State) {
    && IsForest(s.folders)
    && (forall m :: m in s.media && s.media[m].folderId.Some? ==> s.media[m].folderId.value in s.folders)
    && (forall id :: id in s.folders ==> SlugShaped(s.folders[id].slug))
    && (forall a, b :: a in s.folders && b in s.folders && Siblings(s.folders, a, b) && s.folders[a].parentId.Some? ==>
          s.folders[a].slug != s.folders[b].slug)
  }

  lemma NewFolderParents(folders: map<Id, Folder>, id: Id, f: Folder)
    ensures ParentsOf(folders[id := f]) == ParentsOf(folders)[id := f.parentId]
  {}

  lemma DeletedParents(s: State, id: Id)
    ensures ParentsOf(Deleted(s, id).folders) == ParentsOf(s.folders) - {id}
  {}

  lemma ForestAfter(s: State, op: Op)
    requires IsForest(s.folders) && Possible(s, op)
    ensures IsForest(After(s, op).folders)
  {
    if Apply(s, op).Ok? {
      match op {
        case CreateOp(id, name, slug, scope, parentId) =>
          AddLeaf(ParentsOf(s.folders), id, parentId);
          NewFolderParents(s.folders, id, Folder(name, slug, scope, parentId));
        case RenameOp(id, name, slug) =>
          WithSlugParents(s, id, name, slug);
        case MoveOp(id, target) =>
          WithParentParents(s, id, target);
          ReparentKeepsForest(ParentsOf(s.folders), id, target);
        case DeleteOp(id) =>
          LeafParents(s, id);
          RemoveLeaf(ParentsOf(s.folders), id);
          DeletedParents(s, id);
        case _ =>
          assert After(s, op).folders == s.folders;
      }
    }
  }

  lemma LeafParents(s: State, id: Id)
    requires !HasSubFolders(s, id)
    ensures forall x :: x in ParentsOf(s.folders) ==> ParentsOf(s.folders)[x] != Some(id)
  {
    forall x | x in ParentsOf(s.folders) ensures ParentsOf(s.folders)[x] != Some(id) {
      assert s.folders[x].parentId != Some(id);
    }
  }

  /**
    Every operation keeps the folders an acyclic forest without dangling parents, no file, in
    the trash or not, points at a missing folder, slugs below the top level stay unique among siblings, and
    every stored slug is one `toSlug` produces.
  */
  lemma OpKeepsValid(s: State, op: Op)
    requires Valid(s) && Possible(s, op)
    ensures Valid(After(s, op))
  {
    ForestAfter(s, op);
  }

  ghost predicate ValidRun(s: State, ops: seq<Op>)
    decreases |ops|
  {
    ops != [] ==> Possible(s, ops[0]) && ValidRun(After(s, ops[0]), ops[1..])
  }

  ghost function Run(s: State, ops: seq<Op>): State
    requires ValidRun(s, ops)
    decreases |ops|
  {
    if ops == [] then s else Run(After(s, ops[0]), ops[1..])
  }

  lemma {:induction false} RunKeepsValid(s: State, ops: seq<Op>)
    requires Valid(s) && ValidRun(s, ops)
    ensures Valid(Run(s, ops))
    decreases |ops|
  {
    if ops != [] {
      OpKeepsValid(s, ops[0]);
      RunKeepsValid(After(s, ops[0]), ops[1..]);
    }
  }

  const EMPTY := State(map[], map[])

  /** So it is in every tree that starts empty. */
  lemma ReachableIsValid(ops: seq<Op>)
    requires ValidRun(EMPTY, ops)
    ensures Valid(Run(EMPTY, ops))
  {
    EmptyForest();
    assert ParentsOf(EMPTY.folders) == map[];
    RunKeepsValid(EMPTY, ops);
  }

  // ---------------------------------------------------------------- files whose folder goes

  /** Visible files keep a folder from being deleted; the trashed ones in it, and nothing else, lose their folder. */
  lemma DeleteTouchesOnlyTrash(s: State, id: Id, file: int)
    requires Delete(s, id).Ok?
    ensures !HoldsFiles(s, id) && Delete(s, id).next.media.Keys == s.media.Keys
    ensures Visible(s, file) ==> Delete(s, id).next.media[file] == s.media[file]
    ensures file in s.media && !Visible(s, file) ==>
      Delete(s, id).next.media[file] == Media(if s.media[file].folderId == Some(id) then None else s.media[file].folderId, true)
  {
    assert file in s.media ==> s.media[file] != Media(Some(id), false);
  }

  /** Holds the one file only, and no folder. */
  ghost predicate OnlyFile(s: State, id: Id, file: int) {
    && id in s.folders && !HasSubFolders(s, id)
    && file in s.media && s.media[file] == Media(Some(id), false)
    && forall m :: m in s.media && m != file ==> s.media[m] != Media(Some(id), false)
  }

  /**
    A folder with a file is refused; after its last file went to the trash it can go, and a
    file restored later comes back in no folder.
  */
  lemma RestoredOutsideItsFolder(s: State, id: Id, file: int)
    requires Valid(s) && OnlyFile(s, id, file)
    ensures Apply(s, DeleteOp(id)) == Failed(Conflict)
    ensures
      var back := After(After(After(s, TrashOp(file)), DeleteOp(id)), RestoreOp(file));
      && back.folders == s.folders - {id} && Valid(back)
      && file in back.media && back.media[file] == Media(None, false)
  {
    var trashed := After(s, TrashOp(file));
    OpKeepsValid(s, TrashOp(file));
    assert trashed == WithFile(s, file, Media(Some(id), true));
    TrashMakesRoom(s, id, file);
    var gone := After(trashed, DeleteOp(id));
    OpKeepsValid(trashed, DeleteOp(id));
    assert gone == Deleted(trashed, id);
    OpKeepsValid(gone, RestoreOp(file));
  }

  lemma TrashMakesRoom(s: State, id: Id, file: int)
    requires OnlyFile(s, id, file)
    ensures
      var trashed := WithFile(s, file, Media(Some(id), true));
      !HoldsFiles(trashed, id) && !HasSubFolders(trashed, id)
  {
    assert forall x :: x in s.folders ==> s.folders[x].parentId != Some(id);
  }

  // ---------------------------------------------------------------- depth

  /** A folder just created or moved sits at level at most 5. */
  lemma PlacedWithinDepth(s: State, op: Op)
    requires IsForest(s.folders) && Possible(s, op) && (op.CreateOp? || op.MoveOp?) && Apply(s, op).Ok?
    ensures IsForest(After(s, op).folders) && op.id in After(s, op).folders
    ensures Level(After(s, op).folders, op.id) <= MAX_DEPTH
  {
    ForestAfter(s, op);
    var p := ParentsOf(s.folders);
    var q := ParentsOf(After(s, op).folders);
    var parent := if op.CreateOp? then op.parentId else op.target;
    assert q == p[op.id := parent];
    PathUnfold(q, op.id);
    if parent.Some? {
      if op.CreateOp? {
        AddLeaf(p, op.id, parent);
      } else {
        ReparentElsewhere(p, op.id, parent, parent.value);
      }
    }
  }

  /** Levels below the moved folder, at the place it moves to. */
  lemma LevelAfterMove(s: State, id: Id, target: Option<Id>, x: Id)
    requires IsForest(s.folders) && Move(s, id, target).Ok? && x in s.folders
    ensures
      var t := Move(s, id, target).next;
      && id in s.folders && IsForest(t.folders)
      && (target.Some? ==> target.value in s.folders)
      && Level(t.folders, x) ==
           if IsBelow(s.folders, id, x)
           then LevelOf(s.folders, target) + 1 + |Below(ParentsOf(s.folders), id, x)|
           else Level(s.folders, x)
  {
    var p, q := ParentsOf(s.folders), ParentsOf(Move(s, id, target).next.folders);
    ForestAfter(s, MoveOp(id, target));
    WithParentParents(s, id, target);
    PathUnfold(q, id);
    if target.Some? {
      ReparentElsewhere(p, id, target, target.value);
    }
    if IsBelow(s.folders, id, x) {
      ReparentBelow(p, id, target, x);
    } else {
      ReparentElsewhere(p, id, target, x);
    }
  }

  /** The level of a parent; 0 above the top level. */
  ghost function LevelOf(folders: map<Id, Folder>, parentId: Option<Id>): nat
    requires IsForest(folders) && (parentId.Some? ==> parentId.value in folders)
  {
    if parentId == None then 0 else Level(folders, parentId.value)
  }

  ghost predicate WithinDepth(folders: map<Id, Folder>)
    requires IsForest(folders)
  {
    forall x :: x in folders ==> Level(folders, x) <= MAX_DEPTH
  }

  /** The subtree of a folder fits below a parent. */
  ghost predicate SubtreeFits(folders: map<Id, Folder>, id: Id, target: Option<Id>)
    requires IsForest(folders) && id in folders && (target.Some? ==> target.value in folders)
  {
    forall x :: IsBelow(folders, id, x) ==> LevelOf(folders, target) + 1 + |Below(ParentsOf(folders), id, x)| <= MAX_DEPTH
  }

  /**
    The check looks at the folder only. The whole tree stays within 5 levels through an
    operation exactly unless it is a move of a subtree that does not fit at the target.
  */
  lemma WithinDepthIff(s: State, op: Op)
    requires IsForest(s.folders) && WithinDepth(s.folders) && Possible(s, op)
    ensures IsForest(After(s, op).folders)
    ensures WithinDepth(After(s, op).folders) <==>
      !(op.MoveOp? && Apply(s, op).Ok? && !(op.target.Some? && op.target.value !in s.folders)
        && !SubtreeFits(s.folders, op.id, op.target))
  {
    ForestAfter(s, op);
    if Apply(s, op).Ok? {
      match op {
        case MoveOp(id, target) => MoveWithinDepthIff(s, id, target);
        case CreateOp(id, name, slug, scope, parentId) =>
          PlacedWithinDepth(s, op);
          AddLeaf(ParentsOf(s.folders), id, parentId);
          NewFolderParents(s.folders, id, Folder(name, slug, scope, parentId));
        case RenameOp(id, name, slug) => WithSlugParents(s, id, name, slug);
        case DeleteOp(id) =>
          LeafParents(s, id);
          RemoveLeaf(ParentsOf(s.folders), id);
          DeletedParents(s, id);
        case _ =>
      }
    }
  }

  lemma MoveWithinDepthIff(s: State, id: Id, target: Option<Id>)
    requires IsForest(s.folders) && WithinDepth(s.folders) && Move(s, id, target).Ok?
    ensures id in s.folders && IsForest(Move(s, id, target).next.folders)
    ensures target.Some? ==> target.value in s.folders
    ensures WithinDepth(Move(s, id, target).next.folders) <==> SubtreeFits(s.folders, id, target)
  {
    var t := Move(s, id, target).next;
    LevelAfterMove(s, id, target, id);
    forall x | x in s.folders
      ensures Level(t.folders, x) ==
        if IsBelow(s.folders, id, x)
        then LevelOf(s.folders, target) + 1 + |Below(ParentsOf(s.folders), id, x)|
        else Level(s.folders, x)
    {
      LevelAfterMove(s, id, target, x);
    }
  }

  // ---------------------------------------------------------------- slug chains

  lemma SlugsAgree(a: map<Id, Folder>, b: map<Id, Folder>, path: seq<Id>)
    requires Elems(path) <= a.Keys && Elems(path) <= b.Keys
    requires forall x :: x in path ==> a[x].slug == b[x].slug
    ensures SlugsOf(a, path) == SlugsOf(b, path)
  {
    forall i | 0 <= i < |path| ensures SlugsOf(a, path)[i] == SlugsOf(b, path)[i] {
      var x: Id := path[i];
      assert x in path && x in Elems(path);
    }
  }

  lemma SlugsConcat(folders: map<Id, Folder>, x: seq<Id>, y: seq<Id>)
    requires Elems(x) <= folders.Keys && Elems(y) <= folders.Keys
    ensures Elems(x + y) <= folders.Keys
    ensures SlugsOf(folders, x + y) == SlugsOf(folders, x) + SlugsOf(folders, y)
  {
    forall z | z in x + y ensures z in folders {
      if z in x { assert z in Elems(x); } else { assert z in Elems(y); }
    }
  }

  /** The slugs below `id` on the way to `x`. */
  ghost function ChainBelow(folders: map<Id, Folder>, id: Id, x: Id): seq<string>
    requires IsForest(folders) && x in folders && id in folders && id in PathOf(folders, x)
  {
    PathInTable(folders, x);
    var below := Below(ParentsOf(folders), id, x);
    assert forall y :: y in below ==> y in PathOf(folders, x);
    SlugsOf(folders, below)
  }

  /** A folder's chain starts with the chain of each of its ancestors. */
  lemma ChainSplits(folders: map<Id, Folder>, id: Id, x: Id)
    requires IsForest(folders) && x in folders && id in folders && id in PathOf(folders, x)
    ensures SlugChain(folders, x) == SlugChain(folders, id) + ChainBelow(folders, id, x)
  {
    PathInTable(folders, x);
    PathInTable(folders, id);
    PathPrefix(ParentsOf(folders), x, id);
    var below := Below(ParentsOf(folders), id, x);
    assert forall y :: y in below ==> y in PathOf(folders, x);
    assert PathOf(folders, x) == PathOf(folders, id) + below;
    SlugsConcat(folders, PathOf(folders, id), below);
  }

  /** The chain of a parent, if there is one. */
  ghost function ChainUp(folders: map<Id, Folder>, parentId: Option<Id>): seq<string>
    requires IsForest(folders)
  {
    if parentId == None then [] else SlugChain(folders, parentId.value)
  }

  /** The chain of a folder, from the chain of its parent. */
  lemma ChainUnfold(folders: map<Id, Folder>, id: Id)
    requires IsForest(folders) && id in folders
    ensures SlugChain(folders, id) == ChainUp(folders, folders[id].parentId) + [folders[id].slug]
  {
    var p := ParentsOf(folders);
    PathUnfold(p, id);
    PathInTable(folders, id);
    if folders[id].parentId.Some? {
      var up := folders[id].parentId.value;
      PathInTable(folders, up);
      SlugsConcat(folders, PathOf(folders, up), [id]);
    }
  }

  /**
    Moving a folder rewrites the slug chains of exactly its subtree: the old prefix is
    swapped for the new chain, which is the target's chain and the folder's own slug.
  */
  lemma MoveRewritesSubtree(s: State, id: Id, target: Option<Id>, x: Id)
    requires IsForest(s.folders) && Move(s, id, target).Ok? && x in s.folders
    ensures
      var t := Move(s, id, target).next;
      && id in s.folders && IsForest(t.folders)
      && SlugChain(t.folders, id) ==
           ChainUp(s.folders, target) + [s.folders[id].slug]
      && (IsBelow(s.folders, id, x) ==>
           && SlugChain(s.folders, x) == SlugChain(s.folders, id) + ChainBelow(s.folders, id, x)
           && SlugChain(t.folders, x) == SlugChain(t.folders, id) + ChainBelow(s.folders, id, x))
      && (!IsBelow(s.folders, id, x) ==> SlugChain(t.folders, x) == SlugChain(s.folders, x))
  {
    var t := Move(s, id, target).next;
    var p := ParentsOf(s.folders);
    ForestAfter(s, MoveOp(id, target));
    WithParentParents(s, id, target);
    ChainUnfold(t.folders, id);
    if target.Some? {
      ChainUnmoved(s, id, target, target.value);
    }
    if IsBelow(s.folders, id, x) {
      ChainSplits(s.folders, id, x);
      ReparentBelow(p, id, target, x);
      PathInTable(t.folders, id);
      PathInTable(s.folders, x);
      var below := Below(p, id, x);
      assert forall y :: y in below ==> y in PathOf(s.folders, x);
      SlugsConcat(t.folders, PathOf(t.folders, id), below);
      SlugsAgree(s.folders, t.folders, below);
    } else {
      ChainUnmoved(s, id, target, x);
    }
  }

  /** A folder outside the moved subtree keeps its chain. */
  lemma ChainUnmoved(s: State, id: Id, target: Option<Id>, x: Id)
    requires IsForest(s.folders) && Move(s, id, target).Ok? && x in s.folders && !IsBelow(s.folders, id, x)
    ensures IsForest(Move(s, id, target).next.folders)
    ensures SlugChain(Move(s, id, target).next.folders, x) == SlugChain(s.folders, x)
  {
    ForestAfter(s, MoveOp(id, target));
    WithParentParents(s, id, target);
    ReparentElsewhere(ParentsOf(s.folders), id, target, x);
    PathInTable(s.folders, x);
    SlugsAgree(s.folders, Move(s, id, target).next.folders, PathOf(s.folders, x));
  }

  /**
    Renaming a folder rewrites the slug chains of exactly its subtree, and its new chain is
    the old one with the last slug replaced.
  */
  lemma RenameRewritesSubtree(s: State, id: Id, name: string, slug: string, x: Id)
    requires IsForest(s.folders) && Rename(s, id, name, slug).Ok? && x in s.folders
    ensures
      var t := Rename(s, id, name, slug).next;
      && id in s.folders && IsForest(t.folders) && |SlugChain(s.folders, id)| >= 1
      && SlugChain(t.folders, id) == SlugChain(s.folders, id)[..|SlugChain(s.folders, id)| - 1] + [slug]
      && (IsBelow(s.folders, id, x) ==>
           && SlugChain(s.folders, x) == SlugChain(s.folders, id) + ChainBelow(s.folders, id, x)
           && SlugChain(t.folders, x) == SlugChain(t.folders, id) + ChainBelow(s.folders, id, x))
      && (!IsBelow(s.folders, id, x) ==> SlugChain(t.folders, x) == SlugChain(s.folders, x))
  {
    var t := Rename(s, id, name, slug).next;
    WithSlugParents(s, id, name, slug);
    ChainUnfold(s.folders, id);
    ChainUnfold(t.folders, id);
    if s.folders[id].parentId.Some? {
      var up := s.folders[id].parentId.value;
      PathUnfold(ParentsOf(s.folders), id);
      NotBelowItself(ParentsOf(s.folders), id);
      PathInTable(s.folders, up);
      SlugsAgree(s.folders, t.folders, PathOf(s.folders, up));
    }
    PathInTable(s.folders, x);
    if IsBelow(s.folders, id, x) {
      ChainSplits(s.folders, id, x);
      ChainSplits(t.folders, id, x);
      SameBelow(s, t, id, x);
    } else {
      SlugsAgree(s.folders, t.folders, PathOf(s.folders, x));
    }
  }

  lemma NotBelowItself(p: Parents, id: Id)
    requires Forest(p) && id in p && p[id].Some? && p[id].value in p
    ensures id !in Path(p, p[id].value)
  {
    PathShrinks(p, id);
    if id in Path(p, p[id].value) {
      PathPrefix(p, p[id].value, id);
    }
  }

  /** No row occurs twice on its own walk, so the slugs below `id` are not `id`'s. */
  lemma SameBelow(s: State, t: State, id: Id, x: Id)
    requires IsForest(s.folders) && ParentsOf(t.folders) == ParentsOf(s.folders)
    requires IsBelow(s.folders, id, x) && id in s.folders && id in t.folders && x in t.folders
    requires forall y :: y in s.folders && y != id ==> y in t.folders && t.folders[y].slug == s.folders[y].slug
    ensures ChainBelow(t.folders, id, x) == ChainBelow(s.folders, id, x)
  {
    var p := ParentsOf(s.folders);
    PathInTable(s.folders, x);
    PathInTable(t.folders, x);
    var below := Below(p, id, x);
    BelowIsProper(p, id, x);
    forall y | y in below ensures y in PathOf(s.folders, x) && y in s.folders && y != id {
      assert y in PathOf(s.folders, x);
      assert y in Elems(PathOf(s.folders, x));
    }
    SlugsAgree(s.folders, t.folders, below);
  }

  lemma {:induction false} BelowIsProper(p: Parents, id: Id, x: Id)
    requires Forest(p) && x in p && id in p && id in Path(p, x)
    ensures id !in Below(p, id, x)
    decreases |Path(p, x)|
  {
    PathUnfold(p, x);
    PathShrinks(p, x);
    if x != id {
      BelowIsProper(p, id, p[x].value);
      PathPrefix(p, p[x].value, id);
      assert Below(p, id, x) == Below(p, id, p[x].value) + [x];
    }
  }

  // ---------------------------------------------------------------- siblings at the top level

  ghost predicate TopSlugsDistinct(folders: map<Id, Folder>) {
    forall a, b :: a in folders && b in folders && Siblings(folders, a, b) && folders[a].parentId == None ==>
      folders[a].slug != folders[b].slug
  }

  /**
    The unique index does not cover folders without a parent. Every other operation keeps
    top-level slugs distinct; a move keeps them so unless it goes to the top level, where a
    folder of the same slug already is.
  */
  lemma TopLevelSlugs(s: State, op: Op)
    requires Valid(s) && Possible(s, op) && TopSlugsDistinct(s.folders)
    ensures TopSlugsDistinct(After(s, op).folders) <==>
      !(op.MoveOp? && op.target == None && op.id in s.folders
        && SlugTaken(s.folders, s.folders[op.id].slug, None, Some(op.id)))
  {
    if op.MoveOp? && op.target == None && op.id in s.folders
       && SlugTaken(s.folders, s.folders[op.id].slug, None, Some(op.id)) {
      var t := After(s, op);
      assert t == WithParent(s, op.id, None);
      var x :| x in s.folders && Some(x) != Some(op.id) && s.folders[x].slug == s.folders[op.id].slug && s.folders[x].parentId == None;
      assert Siblings(t.folders, x, op.id);
    }
  }

  // ---------------------------------------------------------------- breadcrumbs

  datatype Breadcrumb = Breadcrumb(id: Id, name: string, slug: string)

  ghost predicate Crumb(folders: map<Id, Folder>, id: Id, b: Breadcrumb) {
    id in folders && b == Breadcrumb(id, folders[id].name, folders[id].slug)
  }

  /** One breadcrumb per folder on the walk, root first. */
  ghost predicate IsTrail(folders: map<Id, Folder>, id: Id, trail: seq<Breadcrumb>)
    requires IsForest(folders) && id in folders
  {
    && |trail| == |PathOf(folders, id)|
    && forall i :: 0 <= i < |trail| ==> Crumb(folders, PathOf(folders, id)[i], trail[i])
  }

  /** The slugs of the breadcrumbs are the slug chain. */
  lemma TrailSlugs(folders: map<Id, Folder>, id: Id, trail: seq<Breadcrumb>)
    requires IsForest(folders) && id in folders && IsTrail(folders, id, trail)
    ensures seq(|trail|, i requires 0 <= i < |trail| => trail[i].slug) == SlugChain(folders, id)
  {
    PathInTable(folders, id);
    forall i | 0 <= i < |trail| ensures trail[i].slug == SlugChain(folders, id)[i] {
      assert Crumb(folders, PathOf(folders, id)[i], trail[i]);
    }
  }

  // ---------------------------------------------------------------- the service

  class MediaFoldersService {
    /** The two tables. */
    var folders: map<Id, Folder>
    var media: map<int, Media>

    /** The host's `toLowerCase`. */
    const lower: string -> string

    function Now(): State
      reads this
    {
      State(folders, media)
    }

    constructor (lower: string -> string)
      ensures Now() == EMPTY && this.lower == lower
    {
      folders, media := map[], map[];
      this.lower := lower;
    }

    method GetSlugChain(id: Id) returns (chain: seq<string>)
      requires IsForest(folders)
      ensures chain == SlugChain(folders, id)
    {
      chain := [];
      var currentId := Some(id);
      ghost var p := ParentsOf(folders);
      while currentId != None
        invariant SlugChain(folders, id) == ChainUp(folders, currentId) + chain
        decreases if currentId == None then 0 else if currentId.value !in folders then 1 else 1 + |Path(p, currentId.value)|
      {
        if currentId.value !in folders {
          break;
        }
        ChainUnfold(folders, currentId.value);
        PathUnfold(p, currentId.value);
        chain := [folders[currentId.value].slug] + chain;
        currentId := folders[currentId.value].parentId;
      }
    }

    /** The walk again, keeping ids and names; a folder that does not exist has no breadcrumbs. */
    method GetBreadcrumbs(id: Id) returns (breadcrumbs: Option<seq<Breadcrumb>>)
      requires IsForest(folders)
      ensures breadcrumbs.Some? <==> id in folders
      ensures breadcrumbs.Some? ==> IsTrail(folders, id, breadcrumbs.value)
    {
      var trail := [];
      var currentId := Some(id);
      ghost var p := ParentsOf(folders);
      ghost var rest := if id in folders then PathOf(folders, id) else [];
      while currentId != None
        invariant currentId.Some? && currentId.value in folders ==> rest == Path(p, currentId.value)
        invariant !(currentId.Some? && currentId.value in folders) ==> rest == []
        invariant id in folders ==> |PathOf(folders, id)| == |rest| + |trail|
        invariant id in folders ==> forall i :: 0 <= i < |trail| ==> Crumb(folders, PathOf(folders, id)[|rest| + i], trail[i])
        invariant id in folders ==> rest <= PathOf(folders, id)
        invariant id !in folders ==> trail == []
        decreases if currentId == None then 0 else if currentId.value !in folders then 1 else 1 + |Path(p, currentId.value)|
      {
        if currentId.value !in folders {
          break;
        }
        var f := folders[currentId.value];
        PathUnfold(p, currentId.value);
        trail := [Breadcrumb(currentId.value, f.name, f.slug)] + trail;
        rest := rest[..|rest| - 1];
        currentId := f.parentId;
      }
      if |trail| == 0 {
        if id in folders {
          PathShrinks(p, id);
        }
        return None;
      }
      breadcrumbs := Some(trail);
    }

    method AssertDepth(parentId: Option<Id>) returns (ok: bool)
      requires IsForest(folders)
      ensures ok == DepthOk(folders, parentId)
    {
      var depth := 1;
      var currentId := parentId;
      ghost var p := ParentsOf(folders);
      while currentId != None
        invariant depth >= 1
        invariant currentId.Some? && currentId.value in folders ==>
          (DepthOk(folders, parentId) <==> |Path(p, currentId.value)| + depth - 1 < MAX_DEPTH)
        invariant currentId.Some? && currentId.value !in folders ==> DepthOk(folders, parentId) && depth == 1
        invariant currentId == None ==> DepthOk(folders, parentId)
        decreases if currentId == None then 0 else if currentId.value !in folders then 1 else 1 + |Path(p, currentId.value)|
      {
        if currentId.value in folders {
          PathUnfold(p, currentId.value);
        }
        if depth >= MAX_DEPTH {
          return false;
        }
        if currentId.value !in folders {
          break;
        }
        currentId := folders[currentId.value].parentId;
        depth := depth + 1;
      }
      ok := true;
    }

    method IsDescendant(ancestorId: Id, descendantId: Id) returns (found: bool)
      requires IsForest(folders) && ancestorId in folders
      ensures found == IsBelow(folders, ancestorId, descendantId)
    {
      var currentId := Some(descendantId);
      ghost var p := ParentsOf(folders);
      while currentId != None
        invariant currentId.Some? ==>
          (IsBelow(folders, ancestorId, descendantId) <==> IsBelow(folders, ancestorId, currentId.value))
        invariant currentId == None ==> !IsBelow(folders, ancestorId, descendantId)
        decreases if currentId == None then 0 else if currentId.value !in folders then 1 else 1 + |Path(p, currentId.value)|
      {
        if currentId.value == ancestorId {
          PathShrinks(p, ancestorId);
          return true;
        }
        if currentId.value !in folders {
          break;
        }
        PathUnfold(p, currentId.value);
        currentId := folders[currentId.value].parentId;
      }
      found := false;
    }

    method CreateFolder(id: Id, name: string, scope: string, parentId: Option<Id>) returns (failed: Option<Error>)
      requires IsForest(folders) && id !in folders
      modifies this
      ensures
        var outcome := Create(old(Now()), id, name, ToSlug(lower, name), scope, parentId);
        && (failed == None <==> outcome.Ok?)
        && Now() == (if outcome.Ok? then outcome.next else old(Now()))
        && (failed.Some? ==> outcome == Failed(failed.value))
    {
      var depthOk := AssertDepth(parentId);
      if !depthOk {
        return Some(BadRequest);
      }
      var slug := ToSlug(lower, name);
      if SlugTaken(folders, slug, parentId, None) {
        return Some(Conflict);
      }
      if !ParentExists(folders, parentId) {
        return Some(ForeignKeyViolation);
      }
      folders := folders[id := Folder(name, slug, scope, parentId)];
      failed := None;
    }

    method RenameFolder(id: Id, name: string) returns (failed: Option<Error>, relocation: Option<Relocation>)
      requires IsForest(folders)
      modifies this
      ensures
        var outcome := Rename(old(Now()), id, name, ToSlug(lower, name));
        && (failed == None <==> outcome.Ok?)
        && Now() == (if outcome.Ok? then outcome.next else old(Now()))
        && (if failed == None then relocation == outcome.relocation else outcome == Failed(failed.value))
    {
      relocation := None;
      if id !in folders {
        return Some(NotFound), None;
      }
      var newSlug := ToSlug(lower, name);
      if SlugTaken(folders, newSlug, folders[id].parentId, Some(id)) {
        return Some(Conflict), None;
      }
      var oldChain := GetSlugChain(id);
      RenameRewritesSubtree(Now(), id, name, newSlug, id);
      folders := folders[id := folders[id].(name := name, slug := newSlug)];
      assert Now() == WithSlug(old(Now()), id, name, newSlug);
      // only the last slug of the chain is the folder's own
      var newChain := oldChain[..|oldChain| - 1] + [newSlug];
      if folders[id].scope == "cms" {
        relocation := Some(Relocation(oldChain, newChain));
      }
      failed := None;
    }

    method MoveFolder(id: Id, target: Option<Id>) returns (failed: Option<Error>, relocation: Option<Relocation>)
      requires IsForest(folders)
      modifies this
      ensures
        var outcome := Move(old(Now()), id, target);
        && (failed == None <==> outcome.Ok?)
        && Now() == (if outcome.Ok? then outcome.next else old(Now()))
        && (if failed == None then relocation == outcome.relocation else outcome == Failed(failed.value))
    {
      relocation := None;
      if id !in folders {
        return Some(NotFound), None;
      }
      if target == Some(id) {
        return Some(BadRequest), None;
      }
      if target != None {
        var circular := IsDescendant(id, target.value);
        if circular {
          return Some(BadRequest), None;
        }
      }
      var depthOk := AssertDepth(target);
      if !depthOk {
        return Some(BadRequest), None;
      }
      var oldChain := GetSlugChain(id);
      if MoveError(Now(), id, target) != None {
        return MoveError(Now(), id, target), None;
      }
      ForestAfter(Now(), MoveOp(id, target));
      folders := folders[id := folders[id].(parentId := target)];
      assert Now() == WithParent(old(Now()), id, target);
      var newChain := GetSlugChain(id);
      if folders[id].scope == "cms" {
        relocation := Some(Relocation(oldChain, newChain));
      }
      failed := None;
    }

    method DeleteFolder(id: Id) returns (failed: Option<Error>)
      modifies this
      ensures
        var outcome := Delete(old(Now()), id);
        && (failed == None <==> outcome.Ok?)
        && Now() == (if outcome.Ok? then outcome.next else old(Now()))
        && (failed.Some? ==> outcome == Failed(failed.value))
    {
      if id !in folders {
        return Some(NotFound);
      }
      if HoldsFiles(Now(), id) {
        return Some(Conflict);
      }
      if HasSubFolders(Now(), id) {
        return Some(Conflict);
      }
      media := map m | m in media :: if media[m].folderId == Some(id) then media[m].(folderId := None) else media[m];
      folders := folders - {id};
      failed := None;
    }
  }

  /**
    A file uploaded to a folder of any reachable tree is stored under exactly the folder's
    slug chain if and only if no slug of the chain is empty or longer than 50 characters.
  */
  lemma UploadFollowsBreadcrumbs(s: State, id: Id)
    requires Valid(s) && id in s.folders
    ensures
      var chain := SlugChain(s.folders, id);
      Split(SanitizeChain(Join(chain))) == chain <==> forall i :: 0 <= i < |chain| ==> 1 <= |chain[i]| <= MAX_SEGMENT
  {
    var chain := SlugChain(s.folders, id);
    ChainUnfold(s.folders, id);
    PathInTable(s.folders, id);
    var path := PathOf(s.folders, id);
    forall i | 0 <= i < |chain| ensures SlugShaped(chain[i]) {
      var x: Id := path[i];
      assert x in Elems(path);
    }
    StoredUnderItsChain(chain);
  }
}
