/** What the folder and file operations make of each row, and exactly when they are refused. */
module FolderEffects {
  import opened Common
  import opened Forests
  import opened MediaFolders

  // ---------------------------------------------------------------- folders

  /** A rename changes name and slug, a move the parent, a delete takes the row; every other row, and a refused operation, leaves it. */
  lemma FolderAfter(s: State, op: Op, x: Id)
    requires IsForest(s.folders) && Possible(s, op) && x in s.folders
    ensures x in After(s, op).folders <==> !(op == DeleteOp(x) && Apply(s, op).Ok?)
    ensures x in After(s, op).folders ==>
      var before, after, done := s.folders[x], After(s, op).folders[x], Apply(s, op).Ok?;
      && after.scope == before.scope
      && after.name == (if op.RenameOp? && op.id == x && done then op.name else before.name)
      && after.slug == (if op.RenameOp? && op.id == x && done then op.slug else before.slug)
      && after.parentId == (if op.MoveOp? && op.id == x && done then op.target else before.parentId)
  {}

  /** A created folder is as sent; no other operation adds one. */
  lemma FolderCreated(s: State, op: Op, x: Id)
    requires IsForest(s.folders) && Possible(s, op) && x !in s.folders
    ensures x in After(s, op).folders <==> op.CreateOp? && op.id == x && Apply(s, op).Ok?
    ensures x in After(s, op).folders ==> After(s, op).folders[x] == Folder(op.name, op.slug, op.scope, op.parentId)
  {}

  /** Exactly accepted renames and moves of "cms" folders are handed on to the disk, with the chains before and after. */
  lemma RelocationIff(s: State, op: Op)
    requires IsForest(s.folders) && Possible(s, op) && Apply(s, op).Ok?
    ensures IsForest(After(s, op).folders)
    ensures Apply(s, op).relocation ==
      if (op.RenameOp? || op.MoveOp?) && s.folders[op.id].scope == "cms"
      then Some(Relocation(SlugChain(s.folders, op.id), SlugChain(After(s, op).folders, op.id)))
      else None
  {
    ForestAfter(s, op);
  }

  // ---------------------------------------------------------------- when a folder operation is refused

  /** What the service keeps: a forest, and no two siblings of one slug, at the top level either. */
  ghost predicate Tidy(folders: map<Id, Folder>) {
    && IsForest(folders)
    && forall a, b :: a in folders && b in folders && Siblings(folders, a, b) ==> folders[a].slug != folders[b].slug
  }

  lemma ParentMissing(folders: map<Id, Folder>, id: Id)
    requires id in folders && folders[id].parentId.Some? && folders[id].parentId.value !in folders
    ensures !IsForest(folders)
  {
    if IsForest(folders) {
      PathUnfold(ParentsOf(folders), id);
    }
  }

  lemma OwnParent(folders: map<Id, Folder>, id: Id)
    requires id in folders && folders[id].parentId == Some(id)
    ensures !IsForest(folders)
  {
    if IsForest(folders) {
      PathShrinks(ParentsOf(folders), id);
    }
  }

  /** A create is refused exactly when the tree with the new folder would be untidy, or the folder too deep. */
  lemma CreateRefusedIff(s: State, id: Id, name: string, slug: string, scope: string, parentId: Option<Id>)
    requires Tidy(s.folders) && id !in s.folders
    ensures
      var u := s.folders[id := Folder(name, slug, scope, parentId)];
      Create(s, id, name, slug, scope, parentId).Ok? <==> Tidy(u) && Level(u, id) <= 5
  {
    var u := s.folders[id := Folder(name, slug, scope, parentId)];
    NewFolderParents(s.folders, id, Folder(name, slug, scope, parentId));
    if !ParentExists(s.folders, parentId) {
      if parentId == Some(id) { OwnParent(u, id); } else { ParentMissing(u, id); }
    } else {
      AddLeaf(ParentsOf(s.folders), id, parentId);
      PathUnfold(ParentsOf(u), id);
      NewSibling(s.folders, id, Folder(name, slug, scope, parentId));
    }
  }

  lemma NewSibling(folders: map<Id, Folder>, id: Id, f: Folder)
    requires Tidy(folders) && id !in folders && IsForest(folders[id := f])
    ensures Tidy(folders[id := f]) <==> !SlugTaken(folders, f.slug, f.parentId, None)
  {
    var u := folders[id := f];
    if SlugTaken(folders, f.slug, f.parentId, None) {
      var x :| x in folders && Some(x) != None && folders[x].slug == f.slug && folders[x].parentId == f.parentId;
      assert Siblings(u, x, id) && u[x].slug == u[id].slug;
    } else {
      forall a, b | a in u && b in u && Siblings(u, a, b) ensures u[a].slug != u[b].slug {
        if a != id && b != id {
          assert Siblings(folders, a, b);
        }
      }
    }
  }

  /** A rename of a folder that exists is refused exactly when it would leave the tree untidy. */
  lemma RenameRefusedIff(s: State, id: Id, name: string, slug: string)
    requires Tidy(s.folders) && id in s.folders
    ensures Rename(s, id, name, slug).Ok? <==> Tidy(WithSlug(s, id, name, slug).folders)
  {
    var u := WithSlug(s, id, name, slug).folders;
    WithSlugParents(s, id, name, slug);
    ChangedSibling(s.folders, id, u[id]);
  }

  /** Siblings after one row changed its slug or its place. */
  lemma ChangedSibling(folders: map<Id, Folder>, id: Id, f: Folder)
    requires Tidy(folders) && id in folders && IsForest(folders[id := f])
    ensures Tidy(folders[id := f]) <==> !SlugTaken(folders, f.slug, f.parentId, Some(id))
  {
    var u := folders[id := f];
    if SlugTaken(folders, f.slug, f.parentId, Some(id)) {
      var x :| x in folders && Some(x) != Some(id) && folders[x].slug == f.slug && folders[x].parentId == f.parentId;
      assert Siblings(u, x, id) && u[x].slug == u[id].slug;
    } else {
      forall a, b | a in u && b in u && Siblings(u, a, b) ensures u[a].slug != u[b].slug {
        if a != id && b != id {
          assert Siblings(folders, a, b);
        }
      }
    }
  }

  /**
    A move of a folder that exists is refused exactly when it would leave the tree without its
    shape, or the folder too deep, or beside a namesake; only at the top level a namesake is let pass.
  */
  lemma MoveRefusedIff(s: State, id: Id, target: Option<Id>)
    requires Tidy(s.folders) && id in s.folders
    ensures
      var u := WithParent(s, id, target).folders;
      Move(s, id, target).Ok? <==> IsForest(u) && Level(u, id) <= 5 && (target.Some? ==> Tidy(u))
  {
    var u := WithParent(s, id, target).folders;
    var p := ParentsOf(s.folders);
    WithParentParents(s, id, target);
    if target == Some(id) {
      OwnParent(u, id);
    } else if !ParentExists(s.folders, target) {
      ParentMissing(u, id);
    } else if target.Some? && IsBelow(s.folders, id, target.value) {
      ReparentBelowItself(p, id, target.value);
    } else {
      ReparentKeepsForest(p, id, target);
      PathUnfold(ParentsOf(u), id);
      if target.Some? {
        ReparentElsewhere(p, id, target, target.value);
      }
      ChangedSibling(s.folders, id, u[id]);
    }
  }

  /** A delete of a folder that exists is refused exactly when a folder would lose its parent or a visible file its folder. */
  lemma DeleteRefusedIff(s: State, id: Id)
    requires IsForest(s.folders) && id in s.folders
    ensures Delete(s, id).Ok? <==>
      IsForest(s.folders - {id}) && forall m :: m in s.media && s.media[m].folderId == Some(id) ==> s.media[m].deleted
  {
    DeletedParents(s, id);
    if HasSubFolders(s, id) {
      var x :| x in s.folders && s.folders[x].parentId == Some(id);
      if x == id { OwnParent(s.folders, id); } else { ParentMissing(s.folders - {id}, x); }
    } else {
      LeafParents(s, id);
      RemoveLeaf(ParentsOf(s.folders), id);
    }
    if HoldsFiles(s, id) {
      var m :| m in s.media && s.media[m] == Media(Some(id), false);
    } else {
      forall m | m in s.media && s.media[m].folderId == Some(id) ensures s.media[m].deleted {
        assert s.media[m] != Media(Some(id), false);
      }
    }
  }

  /** What each refusal says: which row is missing, which sibling is in the way, or that the place is none for the folder. */
  lemma FolderErrorMeans(s: State, op: Op)
    requires IsForest(s.folders) && (op.CreateOp? || op.RenameOp? || op.MoveOp? || op.DeleteOp?)
    ensures Apply(s, op) == Failed(NotFound) <==> !op.CreateOp? && op.id !in s.folders
    ensures Apply(s, op) == Failed(Conflict) ==>
      || (op.CreateOp? && SlugTaken(s.folders, op.slug, op.parentId, None))
      || (op.RenameOp? && SlugTaken(s.folders, op.slug, s.folders[op.id].parentId, Some(op.id)))
      || (op.DeleteOp? && (HoldsFiles(s, op.id) || HasSubFolders(s, op.id)))
    ensures Apply(s, op) == Failed(BadRequest) ==>
      || (op.CreateOp? && op.parentId.Some? && op.parentId.value in s.folders && Level(s.folders, op.parentId.value) >= 5)
      || (op.MoveOp? && op.target.Some?
          && (op.target.value in s.folders ==>
                IsBelow(s.folders, op.id, op.target.value) || Level(s.folders, op.target.value) >= 5))
    ensures Apply(s, op) == Failed(ForeignKeyViolation) ==>
      || (op.CreateOp? && op.parentId.Some? && op.parentId.value !in s.folders)
      || (op.MoveOp? && op.target.Some? && op.target.value !in s.folders)
    ensures Apply(s, op) == Failed(UniqueViolation) ==>
      op.MoveOp? && op.target.Some? && SlugTaken(s.folders, s.folders[op.id].slug, op.target, Some(op.id))
    ensures Apply(s, op) != Failed(InvalidFile)
  {
    if op.MoveOp? && op.id in s.folders {
      PathShrinks(ParentsOf(s.folders), op.id);
    }
  }

  // ---------------------------------------------------------------- files

  /** Whether the operation is about the file. */
  predicate About(op: Op, file: int) {
    (op.UploadOp? || op.UpdateMediaOp? || op.TrashOp? || op.RestoreOp? || op.PurgeOp?) && op.file == file
  }

  /**
    What becomes of a file: an upload is visible in its folder, re-filing moves it, the trash
    hides it and a restore shows it again where it was, purging ends it, and deleting its
    folder while it is in the trash takes the folder off it. Nothing else touches it.
  */
  lemma FileAfter(s: State, op: Op, file: int)
    requires IsForest(s.folders) && Possible(s, op)
    ensures
      var before := if file in s.media then Some(s.media[file]) else None;
      var after := if file in After(s, op).media then Some(After(s, op).media[file]) else None;
      var done := Apply(s, op).Ok?;
      if !done || (!About(op, file) && !op.DeleteOp?) then after == before
      else if op.UploadOp? then after == Some(Media(op.folderId, false))
      else if op.UpdateMediaOp? then
        after == Some(Media(if op.field.To? then op.field.folderId else before.value.folderId, false))
      else if op.TrashOp? then after == Some(Media(before.value.folderId, true))
      else if op.RestoreOp? then after == Some(Media(before.value.folderId, false))
      else if op.PurgeOp? then after == None
      else after == if before.Some? && before.value.folderId == Some(op.id) then Some(Media(None, before.value.deleted)) else before
  {}

  /** When a file operation is refused: a file that is not there, or not to be seen; a folder that is not there. */
  lemma FileRefusedIff(s: State, op: Op)
    requires IsForest(s.folders) && Possible(s, op)
    ensures op.UploadOp? ==> (Apply(s, op).Ok? <==> (op.folderId == None || op.folderId.value in s.folders))
    ensures op.TrashOp? ==> (Apply(s, op).Ok? <==> op.file in s.media && !s.media[op.file].deleted)
    ensures op.RestoreOp? || op.PurgeOp? ==> (Apply(s, op).Ok? <==> op.file in s.media)
    ensures op.UpdateMediaOp? ==>
      (Apply(s, op).Ok? <==>
        && op.file in s.media && !s.media[op.file].deleted
        && (op.field.To? && op.field.folderId.Some? && op.field.folderId != s.media[op.file].folderId ==>
              op.field.folderId.value in s.folders))
  {}
}
