/**
  Uploading and filing media (media.service.ts) on top of the folder tree, and inputs on which
  folders and files do not end up where one would expect.
*/
module MediaFiles {
  import opened Common
  import opened Forests
  import opened FolderPaths
  import opened MediaFolders

  /** The directory of a folder, or of a legacy folder string. */
  ghost function Directory(folders: map<Id, Folder>, folderId: Option<Id>, legacy: string): string
    requires IsForest(folders)
  {
    SanitizeChain(if folderId.Some? then Join(SlugChain(folders, folderId.value)) else legacy)
  }

  // ---------------------------------------------------------------- the service

  /** Shares the tables of the folder service; paths on disk are results, not state. */
  class MediaService {
    const foldersService: MediaFoldersService

    constructor (foldersService: MediaFoldersService)
      ensures this.foldersService == foldersService
    {
      this.foldersService := foldersService;
    }

    /** The directory of a folder: its breadcrumbs, joined and sanitized; none for a missing folder. */
    method DirectoryOf(id: Id) returns (directory: Option<string>)
      requires IsForest(foldersService.folders)
      ensures directory.Some? <==> id in foldersService.folders
      ensures directory.Some? ==> directory.value == SanitizeChain(Join(SlugChain(foldersService.folders, id)))
    {
      var breadcrumbs := foldersService.GetBreadcrumbs(id);
      if breadcrumbs == None {
        return None;
      }
      var trail := breadcrumbs.value;
      TrailSlugs(foldersService.folders, id, trail);
      directory := Some(SanitizeChain(Join(seq(|trail|, i requires 0 <= i < |trail| => trail[i].slug))));
    }

    /** `invalid` is the verdict on the file's contents. A folder id takes precedence over the folder string, which defaults to "general". */
    method UploadFile(file: int, invalid: bool, folderId: Option<Id>, folder: string) returns (failed: Option<Error>, directory: string)
      requires IsForest(foldersService.folders) && file !in foldersService.media
      modifies foldersService`media
      ensures
        var outcome := if invalid then Failed(InvalidFile) else Upload(old(foldersService.Now()), file, folderId);
        && (failed == None <==> outcome.Ok?)
        && foldersService.Now() == (if outcome.Ok? then outcome.next else old(foldersService.Now()))
        && (failed.Some? ==> outcome == Failed(failed.value))
      ensures failed == None ==>
        directory == Directory(old(foldersService.folders), folderId, if folder == "" then "general" else folder)
    {
      if invalid {
        return Some(InvalidFile), "";
      }
      directory := SanitizeChain(if folder == "" then "general" else folder);
      if folderId.Some? {
        var found := DirectoryOf(folderId.value);
        if found == None {
          return Some(NotFound), "";
        }
        directory := found.value;
      }
      foldersService.media := foldersService.media[file := Media(folderId, false)];
      failed := None;
    }

    /** Only a folder that differs from the current one moves the file. */
    method UpdateFile(file: int, field: FolderField) returns (failed: Option<Error>, movedTo: Option<string>)
      requires IsForest(foldersService.folders)
      modifies foldersService`media
      ensures
        var outcome := UpdateMedia(old(foldersService.Now()), file, field);
        && (failed == None <==> outcome.Ok?)
        && foldersService.Now() == (if outcome.Ok? then outcome.next else old(foldersService.Now()))
        && (failed.Some? ==> outcome == Failed(failed.value))
      ensures movedTo.Some? <==> failed == None && foldersService.media != old(foldersService.media)
      ensures movedTo.Some? ==>
        field.To? && movedTo.value == Directory(old(foldersService.folders), field.folderId, "general")
    {
      movedTo := None;
      if file !in foldersService.media || foldersService.media[file].deleted {
        return Some(NotFound), None;
      }
      var existing := foldersService.media[file];
      if field.To? && field.folderId != existing.folderId {
        if field.folderId.Some? {
          var found := DirectoryOf(field.folderId.value);
          if found == None {
            return Some(NotFound), None;
          }
          movedTo := found;
        } else {
          movedTo := Some(SanitizeChain("general"));
        }
        foldersService.media := foldersService.media[file := existing.(folderId := field.folderId)];
        assert foldersService.media[file] != existing;
      }
      failed := None;
    }

    method SoftDelete(file: int) returns (failed: Option<Error>)
      modifies foldersService`media
      ensures
        var outcome := Trash(old(foldersService.Now()), file);
        && (failed == None <==> outcome.Ok?)
        && foldersService.Now() == (if outcome.Ok? then outcome.next else old(foldersService.Now()))
        && (failed.Some? ==> outcome == Failed(failed.value))
    {
      if file !in foldersService.media || foldersService.media[file].deleted {
        return Some(NotFound);
      }
      foldersService.media := foldersService.media[file := foldersService.media[file].(deleted := true)];
      failed := None;
    }

    method RestoreFile(file: int) returns (failed: Option<Error>)
      modifies foldersService`media
      ensures
        var outcome := Restore(old(foldersService.Now()), file);
        && (failed == None <==> outcome.Ok?)
        && foldersService.Now() == (if outcome.Ok? then outcome.next else old(foldersService.Now()))
        && (failed.Some? ==> outcome == Failed(failed.value))
    {
      if file !in foldersService.media {
        return Some(NotFound);
      }
      foldersService.media := foldersService.media[file := foldersService.media[file].(deleted := false)];
      failed := None;
    }

    method HardDelete(file: int) returns (failed: Option<Error>)
      modifies foldersService`media
      ensures
        var outcome := Purge(old(foldersService.Now()), file);
        && (failed == None <==> outcome.Ok?)
        && foldersService.Now() == (if outcome.Ok? then outcome.next else old(foldersService.Now()))
        && (failed.Some? ==> outcome == Failed(failed.value))
    {
      if file !in foldersService.media {
        return Some(NotFound);
      }
      foldersService.media := foldersService.media - {file};
      failed := None;
    }
  }

  // ---------------------------------------------------------------- inputs

  lemma RunCons(s: State, op: Op, rest: seq<Op>)
    requires Possible(s, op) && ValidRun(After(s, op), rest)
    ensures ValidRun(s, [op] + rest) && Run(s, [op] + rest) == Run(After(s, op), rest)
  {
    assert ([op] + rest)[1..] == rest;
  }

  /** Creating a folder where its slug is free, at the top or right below it. */
  lemma Created(s: State, id: Id, name: string, slug: string, parentId: Option<Id>)
    requires Valid(s) && id !in s.folders && SlugShaped(slug) && !SlugTaken(s.folders, slug, parentId, None)
    requires parentId.Some? ==> parentId.value in s.folders && s.folders[parentId.value].parentId == None
    ensures After(s, CreateOp(id, name, slug, "cms", parentId))
         == s.(folders := s.folders[id := Folder(name, slug, "cms", parentId)])
    ensures Valid(After(s, CreateOp(id, name, slug, "cms", parentId)))
  {
    if parentId.Some? {
      PathUnfold(ParentsOf(s.folders), parentId.value);
    }
    OpKeepsValid(s, CreateOp(id, name, slug, "cms", parentId));
  }

  lemma EmptyIsValid()
    ensures Valid(EMPTY)
  {
    ReachableIsValid([]);
  }

  const A := CreateOp(1, "a", "a", "cms", None)
  const B := CreateOp(2, "b", "b", "cms", None)
  const A_IN_B := CreateOp(3, "a", "a", "cms", Some(2))
  const OUT := MoveOp(3, None)

  /** "a" and "b" at the top, another "a" in "b". */
  lemma TwinsApart()
    ensures
      var s := After(After(After(EMPTY, A), B), A_IN_B);
      && Possible(EMPTY, A) && Possible(After(EMPTY, A), B) && Possible(After(After(EMPTY, A), B), A_IN_B) && Valid(s)
      && s.folders == map[1 := Folder("a", "a", "cms", None), 2 := Folder("b", "b", "cms", None), 3 := Folder("a", "a", "cms", Some(2))]
  {
    EmptyIsValid();
    Created(EMPTY, 1, "a", "a", None);
    Created(After(EMPTY, A), 2, "b", "b", None);
    Created(After(After(EMPTY, A), B), 3, "a", "a", Some(2));
  }

  /** A folder moved to the top level next to its namesake. */
  lemma TwinsAtTheTop()
    ensures ValidRun(EMPTY, [A] + ([B] + ([A_IN_B] + [OUT])))
    ensures
      var t := Run(EMPTY, [A] + ([B] + ([A_IN_B] + [OUT])));
      && 1 in t.folders && 3 in t.folders
      && t.folders[1] == t.folders[3] == Folder("a", "a", "cms", None)
  {
    hide After;
    TwinsApart();
    var s := After(After(After(EMPTY, A), B), A_IN_B);
    MovedOut(s);
    RunCons(s, OUT, []);
    assert [OUT] + [] == [OUT];
    RunCons(After(After(EMPTY, A), B), A_IN_B, [OUT]);
    RunCons(After(EMPTY, A), B, [A_IN_B] + [OUT]);
    RunCons(EMPTY, A, [B] + ([A_IN_B] + [OUT]));
  }

  lemma MovedOut(s: State)
    requires IsForest(s.folders) && 3 in s.folders
    ensures After(s, OUT) == WithParent(s, 3, None)
  {}

  // two chains of three and the second one moved below the first: level 6

  const DEEP := [CreateOp(1, "a", "a", "cms", None), CreateOp(2, "a", "a", "cms", Some(1)), CreateOp(3, "a", "a", "cms", Some(2)),
                 CreateOp(4, "b", "b", "cms", None), CreateOp(5, "a", "a", "cms", Some(4)), CreateOp(6, "a", "a", "cms", Some(5))]

  lemma RunSnoc(s: State, ops: seq<Op>, op: Op)
    requires ValidRun(s, ops) && Possible(Run(s, ops), op)
    ensures ValidRun(s, ops + [op]) && Run(s, ops + [op]) == After(Run(s, ops), op)
    decreases |ops|
  {
    hide After;
    if ops == [] {
      assert ops + [op] == [op];
      RunCons(s, op, []);
      assert [op] + [] == [op];
    } else {
      assert (ops + [op])[0] == ops[0] && (ops + [op])[1..] == ops[1..] + [op];
      RunSnoc(After(s, ops[0]), ops[1..], op);
    }
  }

  /** A new folder sits one level below its parent, and no other level changes. */
  lemma CreatedAtLevel(s: State, id: Id, slug: string, parentId: Option<Id>)
    requires Valid(s) && id !in s.folders && SlugShaped(slug) && !SlugTaken(s.folders, slug, parentId, None)
    requires parentId.Some? ==> parentId.value in s.folders && Level(s.folders, parentId.value) < MAX_DEPTH
    ensures
      var t := After(s, CreateOp(id, slug, slug, "cms", parentId));
      && t == s.(folders := s.folders[id := Folder(slug, slug, "cms", parentId)]) && Valid(t)
      && Level(t.folders, id) == LevelOf(s.folders, parentId) + 1
      && forall x :: x in s.folders ==> Level(t.folders, x) == Level(s.folders, x)
  {
    var op := CreateOp(id, slug, slug, "cms", parentId);
    var p := ParentsOf(s.folders);
    OpKeepsValid(s, op);
    AddLeaf(p, id, parentId);
    NewFolderParents(s.folders, id, Folder(slug, slug, "cms", parentId));
    PathUnfold(p[id := parentId], id);
  }

  /** The `i`-th of these folders is created below its predecessor, or at the top. */
  function DeepParent(i: int): Option<Id> {
    if i == 1 || i == 4 then None else Some(i - 1)
  }

  function DeepSlug(i: int): string {
    if i == 4 then "b" else "a"
  }

  ghost predicate DeepSoFar(s: State, n: nat) {
    && Valid(s)
    && (forall i :: i in s.folders <==> 1 <= i <= n)
    && (forall i :: 1 <= i <= n ==> s.folders[i] == Folder(DeepSlug(i), DeepSlug(i), "cms", DeepParent(i)))
    && (forall i :: 1 <= i <= n ==> Level(s.folders, i) == if i <= 3 then i else i - 3)
  }

  lemma DeepIsFree(s: State, n: nat)
    requires n < 6 && DeepSoFar(s, n)
    ensures !SlugTaken(s.folders, DeepSlug(n + 1), DeepParent(n + 1), None)
    ensures DEEP[n] == CreateOp(n + 1, DeepSlug(n + 1), DeepSlug(n + 1), "cms", DeepParent(n + 1))
  {
    hide Valid;
    hide Level;
  }

  lemma DeepStep(s: State, n: nat)
    requires n < 6 && DeepSoFar(s, n)
    ensures Possible(s, DEEP[n]) && DeepSoFar(After(s, DEEP[n]), n + 1)
  {
    hide Valid;
    hide Level;
    hide After;
    hide SlugTaken;
    DeepIsFree(s, n);
    CreatedAtLevel(s, n + 1, DeepSlug(n + 1), DeepParent(n + 1));
  }

  lemma {:induction false} DeepRun(n: nat)
    requires n <= 6
    ensures ValidRun(EMPTY, DEEP[..n]) && DeepSoFar(Run(EMPTY, DEEP[..n]), n)
  {
    hide After;
    if n == 0 {
      EmptyIsValid();
      assert DEEP[..0] == [];
    } else {
      DeepRun(n - 1);
      DeepStep(Run(EMPTY, DEEP[..n - 1]), n - 1);
      RunSnoc(EMPTY, DEEP[..n - 1], DEEP[n - 1]);
      assert DEEP[..n] == DEEP[..n - 1] + [DEEP[n - 1]];
    }
  }

  /** A run in which a move takes a folder down to level 6. */
  lemma TooDeep()
    ensures ValidRun(EMPTY, DEEP + [MoveOp(4, Some(3))])
    ensures
      var t := Run(EMPTY, DEEP + [MoveOp(4, Some(3))]);
      && IsForest(t.folders) && 6 in t.folders && Level(t.folders, 6) == 6
  {
    hide After;
    DeepRun(6);
    assert DEEP[..6] == DEEP;
    DeepMove(Run(EMPTY, DEEP));
    RunSnoc(EMPTY, DEEP, MoveOp(4, Some(3)));
  }

  lemma DeepMove(s: State)
    requires DeepSoFar(s, 6)
    ensures
      var t := After(s, MoveOp(4, Some(3)));
      && IsForest(t.folders) && 6 in t.folders && Level(t.folders, 6) == 6
  {
    hide DeepSoFar;
    hide MoveError;
    DeepWalks(s);
    DeepMoveIsFree(s);
    assert Move(s, 4, Some(3)).Ok?;
    LevelAfterMove(s, 4, Some(3), 6);
    assert After(s, MoveOp(4, Some(3))) == WithParent(s, 4, Some(3));
  }

  lemma DeepWalks(s: State)
    requires DeepSoFar(s, 6)
    ensures IsForest(s.folders) && 3 in s.folders && 4 in s.folders && 6 in s.folders
    ensures PathOf(s.folders, 3) == [1, 2, 3] && PathOf(s.folders, 4) == [4] && PathOf(s.folders, 6) == [4, 5, 6]
  {
    WalkOfThree(ParentsOf(s.folders));
  }

  lemma DeepMoveIsFree(s: State)
    requires DeepSoFar(s, 6)
    ensures 4 in s.folders && MoveError(s, 4, Some(3)) == None
  {
    hide Valid;
    hide Level;
  }

  lemma WalkOfThree(p: Parents)
    requires Forest(p) && 1 in p && 2 in p && 3 in p && 4 in p && 5 in p && 6 in p
    requires p[1] == None && p[2] == Some(1) && p[3] == Some(2) && p[4] == None && p[5] == Some(4) && p[6] == Some(5)
    ensures Path(p, 3) == [1, 2, 3] && Path(p, 6) == [4, 5, 6] && Path(p, 4) == [4]
  {
    PathUnfold(p, 1);
    PathUnfold(p, 2);
    PathUnfold(p, 3);
    PathUnfold(p, 4);
    PathUnfold(p, 5);
    PathUnfold(p, 6);
  }

  lemma ChainOfRoot(folders: map<Id, Folder>, id: Id)
    requires IsForest(folders) && id in folders && folders[id].parentId == None
    ensures SlugChain(folders, id) == [folders[id].slug]
  {
    ChainUnfold(folders, id);
  }

  /** Whatever a folder at the top of an empty tree is called, its slug is accepted and is its chain. */
  lemma OnlyFolder(lower: string -> string, name: string)
    requires LowerCases(lower)
    ensures
      var op := CreateOp(1, name, ToSlug(lower, name), "cms", None);
      && ValidRun(EMPTY, [op]) && Valid(Run(EMPTY, [op])) && 1 in Run(EMPTY, [op]).folders
      && SlugChain(Run(EMPTY, [op]).folders, 1) == [ToSlug(lower, name)]
  {
    var slug := ToSlug(lower, name);
    var op := CreateOp(1, name, slug, "cms", None);
    ToSlugShape(lower, name);
    EmptyIsValid();
    Created(EMPTY, 1, name, slug, None);
    RunCons(EMPTY, op, []);
    assert [op] + [] == [op];
    ChainOfRoot(Run(EMPTY, [op]).folders, 1);
  }

  /** A folder called "!!!" has the empty slug, and its files lie under "general". */
  lemma NamelessFolder(lower: string -> string)
    requires LowerCases(lower)
    ensures
      var op := CreateOp(1, "!!!", ToSlug(lower, "!!!"), "cms", None);
      && ValidRun(EMPTY, [op]) && IsForest(Run(EMPTY, [op]).folders)
      && SlugChain(Run(EMPTY, [op]).folders, 1) == [""]
      && SanitizeChain(Join(SlugChain(Run(EMPTY, [op]).folders, 1))) == "general"
  {
    OnlyFolder(lower, "!!!");
    NoSlug(lower);
    EmptyGoesToGeneral();
  }

  lemma NoSlug(lower: string -> string)
    requires LowerCases(lower)
    ensures ToSlug(lower, "!!!") == ""
  {
    assert IsAscii("!!!") && NoUpper("!!!");
    assert TrimStart("!!!") == "!!!" && TrimEnd("!!!") == "!!!";
    assert "!!!"[1..] == "!!" && "!!"[1..] == "!" && "!"[1..] == "";
    assert HyphenateSpaces("!") == "!" && HyphenateSpaces("!!") == "!!" && HyphenateSpaces("!!!") == "!!!";
    assert KeepSafe("!") == "" && KeepSafe("!!") == "" && KeepSafe("!!!") == "";
  }

  lemma EmptyGoesToGeneral()
    ensures SanitizeChain(Join([""])) == "general"
  {
    SanitizeChainParts("");
    assert SanitizeParts(Split("")) == [SanitizeName("")];
  }

  /** A folder whose name is 51 letters keeps them all in its slug, and its files lie under the first 50. */
  lemma LongNamedFolder(lower: string -> string, name: string)
    requires LowerCases(lower) && name == seq(MAX_SEGMENT + 1, i => 'x')
    ensures
      var op := CreateOp(1, name, ToSlug(lower, name), "cms", None);
      && ValidRun(EMPTY, [op]) && IsForest(Run(EMPTY, [op]).folders)
      && SlugChain(Run(EMPTY, [op]).folders, 1) == [name]
      && SanitizeChain(Join(SlugChain(Run(EMPTY, [op]).folders, 1))) == name[..MAX_SEGMENT]
  {
    OnlyFolder(lower, name);
    SlugShapedIsFixed(lower, name);
    SafeHasNoSlash(name);
    KeepSafeOfSafe(name);
    SplitJoin([name]);
    SanitizeChainParts(Join([name]));
    assert SanitizeParts([name]) == [SanitizeName(name)];
  }
}
