/**
 The POST /api/upload handler: its ordered input checks, then verification,
 relocation, cleanup and alias replacement, and the response each path
 sends. The request arrives already parsed by the multipart layer; a field
 the client did not send is None.
 */
module Handler {
  import opened Options
  import opened FileSystem
  import opened Validators
  import opened Uploads
  import opened Staging
  import opened Verification

  datatype Request = Request(files: Option<seq<Upload>>, signatures: Option<seq<Upload>>,
                             identifier: string, directory: string)

  /** Process configuration: the allowed-signers file and the upload root. */
  datatype Config = Config(signersFile: Path, uploadRoot: Path)

  /** A JSON body: {status: ...} or {error: ...}. */
  datatype Body = StatusBody(status: string) | ErrorBody(error: string)

  /** The response sent, or none at all. */
  datatype Reply = Reply(code: int, body: Body) | NoReply

  const MissingPartsMessage: string := "Both files and signatures are required"
  const InvalidIdentifierMessage: string := "Invalid identifier"
  const InvalidDirectoryMessage: string := "Invalid directory"
  const CountMismatchMessage: string := "Mismatch between number of files and signatures"
  const VerifyErrorMessage: string := "Error verifying file signature"
  const MoveErrorMessage: string := "Failed to move files"

  const Success: Reply := Reply(200, StatusBody("OK"))

  /** The destination directory: path.join(upload_path, directory). */
  function Destination(cfg: Config, directory: string): Path
  {
    Join(cfg.uploadRoot, directory)
  }

  /** The alias: path.join(path.resolve(upload_path, '..'), identifier). */
  function AliasPath(cfg: Config, identifier: string): Path
  {
    Join(Parent(cfg.uploadRoot), identifier)
  }

  /** The outcome of the input checks: a 400 reply (and whether cleanup runs first), or the paired parts. */
  datatype Screening = Rejected(reply: Reply, cleans: bool) | Admitted(files: seq<Upload>, signatures: seq<Upload>)

  /** The checks in source order: missing parts, identifier, directory, count mismatch. */
  function Screen(req: Request): (s: Screening)
    ensures s.Rejected? ==> s.reply.Reply? && s.reply.code == 400
    ensures s.Admitted? <==> req.files.Some? && req.signatures.Some? && ValidIdentifier(req.identifier) &&
                             ValidDirectory(req.directory) && |req.files.value| == |req.signatures.value|
    ensures s.Admitted? ==> req.files == Some(s.files) && req.signatures == Some(s.signatures)
  {
    if req.files.None? || req.signatures.None? then Rejected(Reply(400, ErrorBody(MissingPartsMessage)), true)
    else if !ValidIdentifier(req.identifier) then Rejected(Reply(400, ErrorBody(InvalidIdentifierMessage)), false)
    else if !ValidDirectory(req.directory) then Rejected(Reply(400, ErrorBody(InvalidDirectoryMessage)), false)
    else if |req.files.value| != |req.signatures.value| then
      Rejected(Reply(400, ErrorBody(CountMismatchMessage)), true)
    else Admitted(req.files.value, req.signatures.value)
  }

  /**
   The completion order is a permutation of the pairs whenever both fields
   arrived with equally many parts (in particular whenever verification runs).
   */
  ghost predicate ValidOrder(req: Request, order: seq<nat>)
  {
    req.files.Some? && req.signatures.Some? && |req.files.value| == |req.signatures.value| ==>
      IsPermutation(order, |req.files.value|)
  }

  /**
   The reply and the resulting tree for one request. Only the first callback
   of verifyFiles decides the response.
   */
  function HandleSpec(t: Tree, cfg: Config, req: Request, verifier: Verifier, order: seq<nat>): (r: (Reply, Tree))
    requires ValidOrder(req, order)
    ensures r.0.Reply? ==> r.0.code in {200, 400, 500}
    ensures r.0 == Success ==> ValidIdentifier(req.identifier) && ValidDirectory(req.directory)
    ensures r.0 == Success ==>
              AliasPath(cfg, req.identifier) in r.1 &&
              r.1[AliasPath(cfg, req.identifier)] == Entry.Symlink(Destination(cfg, req.directory))
  {
    match Screen(req)
    case Rejected(reply, cleans) =>
      (reply, if cleans then AfterCleanup(t, req.files, req.signatures) else t)
    case Admitted(files, signatures) =>
      var signals := Signals(Outcomes(verifier, cfg.signersFile, req.identifier, files, signatures), order, |files|);
      var dir := Destination(cfg, req.directory);
      if signals == [] then (NoReply, t)
      else if signals[0].Failed? then
        (Reply(500, ErrorBody(VerifyErrorMessage)), AfterCleanup(t, req.files, req.signatures))
      else
        var moved := Moved(t, files, dir);
        if moved.failedAt.Some? then
          (Reply(500, ErrorBody(MoveErrorMessage)), AfterCleanup(moved.tree, req.files, req.signatures))
        else
          (Success, AliasReplaced(AfterCleanup(moved.tree, req.files, req.signatures), AliasPath(cfg, req.identifier), dir))
  }

  /** The request handler, over the process's filesystem. */
  method HandleUpload(fs: FileStore, cfg: Config, req: Request, verifier: Verifier, order: seq<nat>)
    returns (reply: Reply)
    requires ValidOrder(req, order)
    modifies fs
    ensures (reply, fs.entries) == HandleSpec(old(fs.entries), cfg, req, verifier, order)
  {
    var files := req.files;
    var signatures := req.signatures;

    if files.None? || signatures.None? {
      Cleanup(fs, files, signatures);
      return Reply(400, ErrorBody(MissingPartsMessage));
    }
    if !ValidIdentifier(req.identifier) {
      return Reply(400, ErrorBody(InvalidIdentifierMessage));
    }
    if !ValidDirectory(req.directory) {
      return Reply(400, ErrorBody(InvalidDirectoryMessage));
    }
    var identifier := req.identifier;
    var directory := Destination(cfg, req.directory);
    if |files.value| != |signatures.value| {
      Cleanup(fs, files, signatures);
      return Reply(400, ErrorBody(CountMismatchMessage));
    }

    var signals := VerifyFiles(cfg.signersFile, files.value, signatures.value, identifier, verifier, order);
    if signals == [] {
      return NoReply;
    }
    if signals[0].Failed? {
      Cleanup(fs, files, signatures);
      return Reply(500, ErrorBody(VerifyErrorMessage));
    }

    var failedAt := MoveFiles(fs, files.value, directory);
    if failedAt.Some? {
      Cleanup(fs, files, signatures);
      return Reply(500, ErrorBody(MoveErrorMessage));
    }
    Cleanup(fs, files, signatures);
    ReplaceAlias(fs, AliasPath(cfg, identifier), directory);
    return Success;
  }

  // ------------------------------------------------------------ the checks

  /** A missing file or signature field is refused first, after cleaning up the parts that did arrive. */
  lemma MissingPartsCleansUp(t: Tree, cfg: Config, req: Request, verifier: Verifier, order: seq<nat>)
    requires req.files.None? || req.signatures.None?
    ensures HandleSpec(t, cfg, req, verifier, order) ==
              (Reply(400, ErrorBody(MissingPartsMessage)), AfterCleanup(t, req.files, req.signatures))
  {
  }

  /** A bad identifier is refused next, whatever the directory, and the filesystem is left as it was. */
  lemma InvalidIdentifierTouchesNothing(t: Tree, cfg: Config, req: Request, verifier: Verifier, order: seq<nat>)
    requires req.files.Some? && req.signatures.Some?
    requires !ValidIdentifier(req.identifier)
    requires ValidOrder(req, order)
    ensures HandleSpec(t, cfg, req, verifier, order) == (Reply(400, ErrorBody(InvalidIdentifierMessage)), t)
  {
  }

  /** A bad directory is refused after the identifier check, and the filesystem is left as it was. */
  lemma InvalidDirectoryTouchesNothing(t: Tree, cfg: Config, req: Request, verifier: Verifier, order: seq<nat>)
    requires req.files.Some? && req.signatures.Some? && ValidIdentifier(req.identifier)
    requires !ValidDirectory(req.directory)
    requires ValidOrder(req, order)
    ensures HandleSpec(t, cfg, req, verifier, order) == (Reply(400, ErrorBody(InvalidDirectoryMessage)), t)
  {
  }

  /** A climbing directory name is refused before any filesystem call. */
  lemma TraversalRefused(t: Tree, cfg: Config, req: Request, verifier: Verifier, order: seq<nat>)
    requires req.files.Some? && req.signatures.Some? && ValidIdentifier(req.identifier)
    requires req.directory == "../etc"
    requires ValidOrder(req, order)
    ensures HandleSpec(t, cfg, req, verifier, order) == (Reply(400, ErrorBody(InvalidDirectoryMessage)), t)
  {
    TraversalDirectoryRejected();
  }

  /** Unequal numbers of files and signatures are refused last, after cleanup; no temporary path survives. */
  lemma CountMismatchCleansUp(t: Tree, cfg: Config, req: Request, verifier: Verifier, order: seq<nat>)
    requires req.files.Some? && req.signatures.Some?
    requires ValidIdentifier(req.identifier) && ValidDirectory(req.directory)
    requires |req.files.value| != |req.signatures.value|
    ensures var r := HandleSpec(t, cfg, req, verifier, order);
      && r.0 == Reply(400, ErrorBody(CountMismatchMessage))
      && (forall i :: 0 <= i < |req.files.value| ==> req.files.value[i].path !in r.1)
      && (forall i :: 0 <= i < |req.signatures.value| ==> req.signatures.value[i].path !in r.1)
  {
    CleanupRemovesOnlyTemps(t, req.files, req.signatures);
  }

  // ---------------------------------------------------------- verification

  function OutcomesOf(cfg: Config, req: Request, verifier: Verifier): seq<bool>
    requires req.files.Some? && req.signatures.Some? && |req.files.value| == |req.signatures.value|
  {
    Outcomes(verifier, cfg.signersFile, req.identifier, req.files.value, req.signatures.value)
  }

  /**
   If any pair fails verification the reply is 500, nothing is moved and the
   alias is untouched: the only change is the removal of the temporary uploads.
   */
  lemma VerificationFailureMovesNothing(t: Tree, cfg: Config, req: Request, verifier: Verifier, order: seq<nat>, i: nat)
    requires Screen(req).Admitted? && ValidOrder(req, order)
    requires i < |req.files.value| && !OutcomesOf(cfg, req, verifier)[i]
    ensures var r := HandleSpec(t, cfg, req, verifier, order);
      && r.0 == Reply(500, ErrorBody(VerifyErrorMessage))
      && r.1 == AfterCleanup(t, req.files, req.signatures)
      && (forall p :: p !in TempPaths(req.files, req.signatures) ==> (p in r.1 <==> p in t) && (p in t ==> r.1[p] == t[p]))
  {
    FirstSignalIsFailure(OutcomesOf(cfg, req, verifier), order, i);
    CleanupRemovesOnlyTemps(t, req.files, req.signatures);
  }

  /** A reply is sent unless the batch is empty, which the multipart layer never produces. */
  lemma NoReplyOnlyForEmptyBatch(t: Tree, cfg: Config, req: Request, verifier: Verifier, order: seq<nat>)
    requires ValidOrder(req, order)
    ensures HandleSpec(t, cfg, req, verifier, order).0 == NoReply <==>
              Screen(req).Admitted? && |req.files.value| == 0
  {
    if Screen(req).Admitted? {
      var outcomes := OutcomesOf(cfg, req, verifier);
      if |outcomes| > 0 {
        if forall i :: 0 <= i < |outcomes| ==> outcomes[i] {
          SuccessIsSoleSignal(outcomes, order);
        } else {
          var i :| 0 <= i < |outcomes| && !outcomes[i];
          FirstSignalIsFailure(outcomes, order, i);
        }
      }
    }
  }

  /** The order in which the verifications finish does not change the reply or the resulting tree. */
  lemma ReplyIgnoresCompletionOrder(t: Tree, cfg: Config, req: Request, verifier: Verifier, order1: seq<nat>, order2: seq<nat>)
    requires ValidOrder(req, order1) && ValidOrder(req, order2)
    ensures HandleSpec(t, cfg, req, verifier, order1) == HandleSpec(t, cfg, req, verifier, order2)
  {
    if Screen(req).Admitted? {
      var outcomes := OutcomesOf(cfg, req, verifier);
      if |outcomes| > 0 {
        if forall i :: 0 <= i < |outcomes| ==> outcomes[i] {
          SuccessIsSoleSignal(outcomes, order1);
          SuccessIsSoleSignal(outcomes, order2);
        } else {
          var i :| 0 <= i < |outcomes| && !outcomes[i];
          FirstSignalIsFailure(outcomes, order1, i);
          FirstSignalIsFailure(outcomes, order2, i);
        }
      }
    }
  }

  // -------------------------------------------------------- publishing

  /** When every pair verifies, the outcome is that of moveFiles: a move error gives 500, success publishes. */
  lemma AllVerifiedMoves(t: Tree, cfg: Config, req: Request, verifier: Verifier, order: seq<nat>)
    requires Screen(req).Admitted? && ValidOrder(req, order)
    requires |req.files.value| > 0
    requires forall i :: 0 <= i < |req.files.value| ==> OutcomesOf(cfg, req, verifier)[i]
    ensures var dir := Destination(cfg, req.directory);
      var moved := Moved(t, req.files.value, dir);
      HandleSpec(t, cfg, req, verifier, order) ==
        if moved.failedAt.Some? then
          (Reply(500, ErrorBody(MoveErrorMessage)), AfterCleanup(moved.tree, req.files, req.signatures))
        else
          (Success, AliasReplaced(AfterCleanup(moved.tree, req.files, req.signatures), AliasPath(cfg, req.identifier), dir))
  {
    SuccessIsSoleSignal(OutcomesOf(cfg, req, verifier), order);
  }

  /**
   A move error replies 500 and leaves in place every file renamed before the
   failing one (there is no rollback); only the temporary uploads are removed.
   */
  lemma MoveFailureKeepsPartialBatch(t: Tree, cfg: Config, req: Request, verifier: Verifier, order: seq<nat>)
    requires Screen(req).Admitted? && ValidOrder(req, order)
    requires |req.files.value| > 0
    requires forall i :: 0 <= i < |req.files.value| ==> OutcomesOf(cfg, req, verifier)[i]
    requires Moved(t, req.files.value, Destination(cfg, req.directory)).failedAt.Some?
    ensures var dir := Destination(cfg, req.directory);
      var k := Moved(t, req.files.value, dir).failedAt.value;
      k < |req.files.value| &&
      HandleSpec(t, cfg, req, verifier, order) ==
        (Reply(500, ErrorBody(MoveErrorMessage)),
         AfterCleanup(RenameEach(WithDirectory(t, dir), req.files.value[..k], dir).tree, req.files, req.signatures))
  {
    AllVerifiedMoves(t, cfg, req, verifier, order);
    var dir := Destination(cfg, req.directory);
    MoveFailureKeepsEarlierMoves(WithDirectory(t, dir), req.files.value, dir);
  }

  /**
   A request whose paths cannot collide: the file batch is clean, the
   destination is absent or a directory, and neither a signature's temporary
   path nor the alias is the destination or a target; the alias is not a
   temporary path.
   */
  ghost predicate CleanRequest(t: Tree, cfg: Config, req: Request)
    requires Screen(req).Admitted?
  {
    var files, signatures := req.files.value, req.signatures.value;
    var dir := Destination(cfg, req.directory);
    var link := AliasPath(cfg, req.identifier);
    && (dir !in t || IsDirectory(t, dir))
    && CleanBatch(t, files, dir)
    && (forall j :: 0 <= j < |signatures| ==> signatures[j].path != dir && signatures[j].path !in TargetsOf(files, dir))
    && link != dir && link !in TargetsOf(files, dir) && link !in TempPaths(req.files, req.signatures)
  }

  /**
   The success path end to end: a clean request whose every pair verifies gets
   200 {status: 'OK'}; every dir/originalname exists and holds the content
   uploaded by the last file of that name, no temporary upload remains, the
   destination is a directory and the alias links to it.
   */
  lemma AllVerifiedPublishes(t: Tree, cfg: Config, req: Request, verifier: Verifier, order: seq<nat>)
    requires Screen(req).Admitted? && ValidOrder(req, order)
    requires |req.files.value| > 0
    requires forall i :: 0 <= i < |req.files.value| ==> OutcomesOf(cfg, req, verifier)[i]
    requires CleanRequest(t, cfg, req)
    ensures var files, signatures := req.files.value, req.signatures.value;
      var dir := Destination(cfg, req.directory);
      var r := HandleSpec(t, cfg, req, verifier, order);
      && r.0 == Success
      && (forall i :: 0 <= i < |files| ==>
            Target(dir, files[i]) in r.1 && (LastWithName(files, i) ==> r.1[Target(dir, files[i])] == t[files[i].path]))
      && (forall p :: p in TempPaths(req.files, req.signatures) ==> p !in r.1)
      && IsDirectory(r.1, dir)
      && r.1[AliasPath(cfg, req.identifier)] == Entry.Symlink(dir)
  {
    var files := req.files.value;
    var dir := Destination(cfg, req.directory);
    AllVerifiedMoves(t, cfg, req, verifier, order);
    MoveCleanBatch(t, files, dir);
    var moved := Moved(t, files, dir).tree;
    var cleaned := AfterCleanup(moved, req.files, req.signatures);
    forall i | 0 <= i < |files|
      ensures Target(dir, files[i]) !in TempPaths(req.files, req.signatures)
    {
      assert files[i] in files;
      PathsOfExcludes(files, Target(dir, files[i]));
      PathsOfExcludes(req.signatures.value, Target(dir, files[i]));
    }
    PathsOfExcludes(files, dir);
    PathsOfExcludes(req.signatures.value, dir);
  }

  /**
   Two files of one request with the same original name: the reply is still
   200, and the shared target holds the later file's content, so the earlier
   upload is lost.
   */
  lemma DuplicateNameOverwrites(t: Tree, cfg: Config, req: Request, verifier: Verifier, order: seq<nat>, i: nat, j: nat)
    requires Screen(req).Admitted? && ValidOrder(req, order)
    requires forall k :: 0 <= k < |req.files.value| ==> OutcomesOf(cfg, req, verifier)[k]
    requires CleanRequest(t, cfg, req)
    requires i < j < |req.files.value|
    requires req.files.value[i].originalname == req.files.value[j].originalname
    requires LastWithName(req.files.value, j)
    ensures var files := req.files.value;
      var r := HandleSpec(t, cfg, req, verifier, order);
      && r.0 == Success
      && Target(Destination(cfg, req.directory), files[i]) in r.1
      && r.1[Target(Destination(cfg, req.directory), files[i])] == t[files[j].path]
  {
    var files := req.files.value;
    AllVerifiedPublishes(t, cfg, req, verifier, order);
    TargetsMeetIffSameName(Destination(cfg, req.directory), files[i], files[j]);
  }
}
