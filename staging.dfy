/**
 The three filesystem mutators of the upload handler: removing the temporary
 uploads (cleanup), relocating the verified files into the destination
 directory (moveFiles), and re-pointing the identifier's alias link.
 Each is a method over a FileStore, specified by a function on the tree.
 */
module Staging {
  import opened Options
  import opened FileSystem
  import opened Uploads

  // ---------------------------------------------------------------- cleanup

  /** The tree after cleanup: every temporary path is gone, nothing else differs. */
  function AfterCleanup(t: Tree, files: Option<seq<Upload>>, signatures: Option<seq<Upload>>): Tree
  {
    t - TempPaths(files, signatures)
  }

  /** One forEach of cleanup: unlink each path that still exists. */
  method UnlinkExisting(fs: FileStore, uploads: seq<Upload>)
    modifies fs
    ensures fs.entries == old(fs.entries) - PathsOf(uploads)
  {
    var i := 0;
    while i < |uploads|
      invariant 0 <= i <= |uploads|
      invariant fs.entries == old(fs.entries) - PathsOf(uploads[..i])
    {
      var p := uploads[i].path;
      if fs.Exists(p) {
        fs.Unlink(p);
      }
      assert PathsOf(uploads[..i + 1]) == PathsOf(uploads[..i]) + {p} by {
        assert uploads[..i + 1] == uploads[..i] + [uploads[i]];
      }
      i := i + 1;
    }
    assert uploads[..i] == uploads;
  }

  /** cleanup(files, signatures) */
  method Cleanup(fs: FileStore, files: Option<seq<Upload>>, signatures: Option<seq<Upload>>)
    modifies fs
    ensures fs.entries == AfterCleanup(old(fs.entries), files, signatures)
  {
    if files.Some? {
      UnlinkExisting(fs, files.value);
    }
    if signatures.Some? {
      UnlinkExisting(fs, signatures.value);
    }
  }

  /** After cleanup no temporary path exists, and every other entry is as it was. */
  lemma CleanupRemovesOnlyTemps(t: Tree, files: Option<seq<Upload>>, signatures: Option<seq<Upload>>)
    ensures forall i :: files.Some? && 0 <= i < |files.value| ==> files.value[i].path !in AfterCleanup(t, files, signatures)
    ensures forall i :: signatures.Some? && 0 <= i < |signatures.value| ==>
              signatures.value[i].path !in AfterCleanup(t, files, signatures)
    ensures forall p :: p !in TempPaths(files, signatures) ==>
              (p in AfterCleanup(t, files, signatures) <==> p in t) &&
              (p in t ==> AfterCleanup(t, files, signatures)[p] == t[p])
  {
    forall i | files.Some? && 0 <= i < |files.value|
      ensures files.value[i].path in TempPaths(files, signatures)
    {
      assert files.value[i] in files.value;
    }
    forall i | signatures.Some? && 0 <= i < |signatures.value|
      ensures signatures.value[i].path in TempPaths(files, signatures)
    {
      assert signatures.value[i] in signatures.value;
    }
  }

  /** Running cleanup a second time changes nothing. */
  lemma CleanupIdempotent(t: Tree, files: Option<seq<Upload>>, signatures: Option<seq<Upload>>)
    ensures AfterCleanup(AfterCleanup(t, files, signatures), files, signatures) == AfterCleanup(t, files, signatures)
  {
  }

  // ------------------------------------------------------------- moveFiles

  /** Where a file lands: path.join(directory, file.originalname). */
  function Target(dir: Path, u: Upload): Path
  {
    Join(dir, u.originalname)
  }

  /** The outcome of moveFiles: the tree, and the index of the file that threw, if any. */
  datatype MoveResult = MoveResult(tree: Tree, failedAt: Option<nat>)

  /** The existence check and mkdirSync that open moveFiles. */
  function WithDirectory(t: Tree, dir: Path): Tree
  {
    if dir in t then t else t[dir := Directory]
  }

  /**
   The forEach of moveFiles over `files`, from tree t: rename each file to its
   target, then throw if the target is missing. The first throw stops the loop;
   files already renamed stay where they are.
   */
  function RenameEach(t: Tree, files: seq<Upload>, dir: Path): MoveResult
    decreases |files|
  {
    if files == [] then MoveResult(t, None)
    else
      var prev := RenameEach(t, files[..|files| - 1], dir);
      var u := files[|files| - 1];
      if prev.failedAt.Some? then prev
      else match Renamed(prev.tree, u.path, Target(dir, u))
        case None => MoveResult(prev.tree, Some(|files| - 1))
        case Some(t') =>
          if Target(dir, u) in t' then MoveResult(t', None) else MoveResult(t', Some(|files| - 1))
  }

  /** moveFiles(files, directory) on a tree. */
  function Moved(t: Tree, files: seq<Upload>, dir: Path): MoveResult
  {
    RenameEach(WithDirectory(t, dir), files, dir)
  }

  /** moveFiles(files, directory); `failedAt` is the index of the file for which it throws. */
  method MoveFiles(fs: FileStore, files: seq<Upload>, dir: Path) returns (failedAt: Option<nat>)
    modifies fs
    ensures MoveResult(fs.entries, failedAt) == Moved(old(fs.entries), files, dir)
  {
    if !fs.Exists(dir) {
      fs.MakeDirectory(dir);
    }
    ghost var start := fs.entries;
    var i := 0;
    while i < |files|
      invariant 0 <= i <= |files|
      invariant start == WithDirectory(old(fs.entries), dir)
      invariant RenameEach(start, files[..i], dir) == MoveResult(fs.entries, None)
    {
      var target := Target(dir, files[i]);
      var ok := fs.Rename(files[i].path, target);
      assert files[..i + 1][..i] == files[..i] && files[..i + 1][i] == files[i];
      if !ok || !fs.Exists(target) {
        assert RenameEach(start, files[..i + 1], dir) == MoveResult(fs.entries, Some(i));
        FailureIsFinal(start, files, i + 1, dir);
        failedAt := Some(i);
        return;
      }
      i := i + 1;
    }
    assert files[..i] == files;
    failedAt := None;
  }

  /** Once a prefix of the batch has thrown, the rest of the batch is never looked at. */
  lemma {:induction false} FailureIsFinal(t: Tree, files: seq<Upload>, k: nat, dir: Path)
    requires k <= |files|
    requires RenameEach(t, files[..k], dir).failedAt.Some?
    ensures RenameEach(t, files, dir) == RenameEach(t, files[..k], dir)
    decreases |files|
  {
    if k < |files| {
      var n := |files| - 1;
      assert files[..n][..k] == files[..k];
      FailureIsFinal(t, files[..n], k, dir);
    } else {
      assert files[..k] == files;
    }
  }

  /** A successful rename always leaves its target in place, so the existence check after it never throws. */
  lemma RenameLeavesTarget(t: Tree, src: Path, dst: Path)
    requires Renamed(t, src, dst).Some?
    ensures dst in Renamed(t, src, dst).value
  {
  }

  /**
   When moveFiles throws at file k, the tree is exactly the one left by
   renaming files 0..k-1 (there is no rollback), and it is the rename of
   file k that failed.
   */
  lemma {:induction false} MoveFailureKeepsEarlierMoves(t: Tree, files: seq<Upload>, dir: Path)
    requires RenameEach(t, files, dir).failedAt.Some?
    ensures var k := RenameEach(t, files, dir).failedAt.value;
      && k < |files|
      && RenameEach(t, files[..k], dir).failedAt.None?
      && RenameEach(t, files, dir).tree == RenameEach(t, files[..k], dir).tree
      && Renamed(RenameEach(t, files[..k], dir).tree, files[k].path, Target(dir, files[k])).None?
  {
    var n := |files| - 1;
    var prev := RenameEach(t, files[..n], dir);
    if prev.failedAt.Some? {
      MoveFailureKeepsEarlierMoves(t, files[..n], dir);
      var k := prev.failedAt.value;
      assert files[..n][..k] == files[..k];
    } else {
      assert files[..n] == files[..|files| - 1];
    }
  }

  /**
   A batch whose moves cannot disturb one another except through a shared
   original name: its temporary uploads exist as regular files at pairwise
   distinct paths, no temporary path is a target or the destination, and no
   target is an existing directory. Two files of the batch may have the same
   original name, and so the same target.
   */
  ghost predicate CleanBatch(t: Tree, files: seq<Upload>, dir: Path)
  {
    && (forall i :: 0 <= i < |files| ==> files[i].path in t && t[files[i].path].File?)
    && (forall i, j :: 0 <= i < j < |files| ==> files[i].path != files[j].path)
    && (forall i, j :: 0 <= i < |files| && 0 <= j < |files| ==> files[i].path != Target(dir, files[j]))
    && (forall i :: 0 <= i < |files| ==> files[i].path != dir)
    && (forall i :: 0 <= i < |files| ==> !IsDirectory(t, Target(dir, files[i])))
  }

  /** No later file of the batch has file i's original name, so file i's rename is the one that stays. */
  ghost predicate LastWithName(files: seq<Upload>, i: int)
    requires 0 <= i < |files|
  {
    forall j :: i < j < |files| ==> files[j].originalname != files[i].originalname
  }

  function TargetsOf(files: seq<Upload>, dir: Path): set<Path>
  {
    set u | u in files :: Target(dir, u)
  }

  /**
   r is t with every file of the batch relocated: each target holds a regular
   file, namely what the temporary path of the LAST file with that name held
   (an earlier file of the same name is overwritten); no temporary path
   remains, and every other entry is untouched.
   */
  ghost predicate Relocated(t: Tree, r: Tree, files: seq<Upload>, dir: Path)
    requires forall i :: 0 <= i < |files| ==> files[i].path in t
  {
    && (forall i :: 0 <= i < |files| ==>
          && Target(dir, files[i]) in r
          && r[Target(dir, files[i])].File?
          && (LastWithName(files, i) ==> r[Target(dir, files[i])] == t[files[i].path]))
    && (forall i :: 0 <= i < |files| ==> files[i].path !in r)
    && (forall p :: p !in PathsOf(files) && p !in TargetsOf(files, dir) ==>
          (p in r <==> p in t) && (p in t ==> r[p] == t[p]))
  }

  lemma TargetsOfExcludes(files: seq<Upload>, dir: Path, p: Path)
    requires forall i :: 0 <= i < |files| ==> Target(dir, files[i]) != p
    ensures p !in TargetsOf(files, dir)
  {
    forall v | v in files ensures Target(dir, v) != p {
      var j :| 0 <= j < |files| && files[j] == v;
    }
  }

  /** Two files land on the same target exactly when they have the same original name. */
  lemma TargetsMeetIffSameName(dir: Path, u: Upload, v: Upload)
    ensures Target(dir, u) == Target(dir, v) <==> u.originalname == v.originalname
  {
    if Target(dir, u) == Target(dir, v) {
      assert Target(dir, u)[|dir|] == u.originalname;
    }
  }

  /** Relocating one more file, u, whose paths do not meet the batch's temporary paths: the batch's own paths. */
  lemma RelocatedExtendBatch(t: Tree, prev: Tree, r: Tree, init: seq<Upload>, u: Upload, files: seq<Upload>, dir: Path)
    requires files == init + [u]
    requires forall i :: 0 <= i < |init| ==> init[i].path in t
    requires u.path in t && t[u.path].File? && u.path in prev && prev[u.path] == t[u.path]
    requires r == (prev - {u.path})[Target(dir, u) := prev[u.path]]
    requires Relocated(t, prev, init, dir)
    requires forall i :: 0 <= i < |init| ==> Target(dir, init[i]) != u.path && init[i].path != Target(dir, u)
    requires u.path != Target(dir, u)
    ensures forall i :: 0 <= i < |files| ==>
              && Target(dir, files[i]) in r
              && r[Target(dir, files[i])].File?
              && (LastWithName(files, i) ==> r[Target(dir, files[i])] == t[files[i].path])
    ensures forall i :: 0 <= i < |files| ==> files[i].path !in r
  {
    forall i | 0 <= i < |files|
      ensures && Target(dir, files[i]) in r
              && r[Target(dir, files[i])].File?
              && (LastWithName(files, i) ==> r[Target(dir, files[i])] == t[files[i].path])
              && files[i].path !in r
    {
      if i < |init| {
        ExtendEarlier(t, prev, r, init, u, files, dir, i);
      } else {
        assert files[i] == u;
      }
    }
  }

  /** Relocating u after init leaves an earlier file i where it was, unless a same-named u overwrote it. */
  lemma ExtendEarlier(t: Tree, prev: Tree, r: Tree, init: seq<Upload>, u: Upload, files: seq<Upload>, dir: Path, i: nat)
    requires files == init + [u] && i < |init|
    requires init[i].path in t && u.path in prev && prev[u.path].File?
    requires r == (prev - {u.path})[Target(dir, u) := prev[u.path]]
    requires Target(dir, init[i]) in prev && prev[Target(dir, init[i])].File?
    requires LastWithName(init, i) ==> prev[Target(dir, init[i])] == t[init[i].path]
    requires init[i].path !in prev
    requires Target(dir, init[i]) != u.path && init[i].path != Target(dir, u)
    ensures && Target(dir, files[i]) in r
            && r[Target(dir, files[i])].File?
            && (LastWithName(files, i) ==> r[Target(dir, files[i])] == t[files[i].path])
            && files[i].path !in r
  {
    assert files[i] == init[i];
    if LastWithName(files, i) {
      assert files[|init|] == u;
      TargetsMeetIffSameName(dir, files[i], u);
      assert LastWithName(init, i) by {
        forall j | i < j < |init| ensures init[j].originalname != init[i].originalname {
          assert files[j] == init[j];
        }
      }
    }
  }

  /** Relocating one more file: every entry outside the batch's paths is untouched. */
  lemma RelocatedExtendFrame(t: Tree, prev: Tree, r: Tree, init: seq<Upload>, u: Upload, files: seq<Upload>, dir: Path)
    requires files == init + [u]
    requires forall i :: 0 <= i < |init| ==> init[i].path in t
    requires u.path in prev
    requires r == (prev - {u.path})[Target(dir, u) := prev[u.path]]
    requires Relocated(t, prev, init, dir)
    ensures forall p :: p !in PathsOf(files) && p !in TargetsOf(files, dir) ==>
      (p in r <==> p in t) && (p in t ==> r[p] == t[p])
  {
    assert u in files;
    assert forall v :: v in init ==> v in files;
  }

  /** Before file u's rename its target is not a directory: it is an earlier file's target, or untouched. */
  lemma TargetNotDirectory(t: Tree, prev: Tree, init: seq<Upload>, u: Upload, dir: Path)
    requires forall i :: 0 <= i < |init| ==> init[i].path in t
    requires Relocated(t, prev, init, dir)
    requires forall i :: 0 <= i < |init| ==> init[i].path != Target(dir, u)
    requires !IsDirectory(t, Target(dir, u))
    ensures !IsDirectory(prev, Target(dir, u))
  {
    var target := Target(dir, u);
    if i :| 0 <= i < |init| && Target(dir, init[i]) == target {
      assert prev[Target(dir, init[i])].File?;
    } else {
      TargetsOfExcludes(init, dir, target);
      PathsOfExcludes(init, target);
    }
  }

  /**
   The forEach of moveFiles on a clean batch never throws, and it relocates
   the batch: a later file with the same original name overwrites an earlier one.
   */
  lemma {:induction false} RenameEachRelocates(t: Tree, files: seq<Upload>, dir: Path)
    requires IsDirectory(t, dir)
    requires CleanBatch(t, files, dir)
    ensures RenameEach(t, files, dir).failedAt.None?
    ensures Relocated(t, RenameEach(t, files, dir).tree, files, dir)
  {
    if files != [] {
      var n := |files| - 1;
      var init, u := files[..n], files[n];
      assert files == init + [u];
      assert CleanBatch(t, init, dir);
      RenameEachRelocates(t, init, dir);
      var prev := RenameEach(t, init, dir).tree;
      var target := Target(dir, u);
      PathsOfExcludes(init, u.path);
      TargetsOfExcludes(init, dir, u.path);
      PathsOfExcludes(init, dir);
      TargetsOfExcludes(init, dir, dir);
      assert u.path in prev && prev[u.path] == t[u.path];
      var r := (prev - {u.path})[target := prev[u.path]];
      RelocatedExtendBatch(t, prev, r, init, u, files, dir);
      RelocatedExtendFrame(t, prev, r, init, u, files, dir);
      TargetNotDirectory(t, prev, init, u, dir);
      assert IsDirectory(prev, dir);
      assert Renamed(prev, u.path, target) == Some((prev - {u.path})[target := prev[u.path]]);
    }
  }

  /**
   moveFiles on a clean batch never throws: the destination exists as a
   directory afterwards, and the batch is relocated into it.
   */
  lemma MoveCleanBatch(t: Tree, files: seq<Upload>, dir: Path)
    requires dir !in t || IsDirectory(t, dir)
    requires CleanBatch(t, files, dir)
    ensures Moved(t, files, dir).failedAt.None?
    ensures IsDirectory(Moved(t, files, dir).tree, dir)
    ensures Relocated(WithDirectory(t, dir), Moved(t, files, dir).tree, files, dir)
  {
    var t1 := WithDirectory(t, dir);
    assert CleanBatch(t1, files, dir);
    RenameEachRelocates(t1, files, dir);
    PathsOfExcludes(files, dir);
    TargetsOfExcludes(files, dir, dir);
  }

  // --------------------------------------------------------- alias replacement

  /** The tree after the alias step: `link` is a symbolic link to `target`, nothing else differs. */
  function AliasReplaced(t: Tree, link: Path, target: Path): Tree
  {
    t[link := Entry.Symlink(target)]
  }

  /** if (existsSync(link)) unlinkSync(link); symlinkSync(directory, link) */
  method ReplaceAlias(fs: FileStore, link: Path, target: Path)
    modifies fs
    ensures fs.entries == AliasReplaced(old(fs.entries), link, target)
  {
    if fs.Exists(link) {
      fs.Unlink(link);
    }
    fs.MakeSymlink(target, link);
  }
}
