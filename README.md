# Verified model of the binary upload server's request handler

The server takes a batch of files with detached SSH signatures on
`POST /api/upload`. It checks each signature with `ssh-keygen -Y verify`
against an allowed-signers file. If every signature passes, it moves the
files into `<upload root>/<directory>/<original name>` and points a symbolic
link `<parent of upload root>/<identifier>` at that directory. This project
models the decision procedure of that handler in Dafny and proves its
properties.

The model has six modules:

- `Validators` (validators.dfy) models the two input regular expressions,
  `^[A-Za-z0-9_\-@.]+$` for the identifier and `^[A-Za-z0-9]+$`
  (case-insensitive) for the directory. Each is a character class given as a
  list of ranges plus an anchored one-or-more matcher. Both are proved equal
  to plain character predicates.
- `FileSystem` (filesystem.dfy) is the host filesystem as Node's synchronous
  `fs` calls see it: a `FileStore` class whose `entries` field maps a path
  (a sequence of components) to a file, a directory or a symbolic link. It
  has `Exists`, `Unlink`, `Rename`, `MakeDirectory` and `MakeSymlink`.
- `Uploads` (uploads.dfy) is the uploaded part as the multipart layer hands
  it over, a temporary path and the client's file name, together with the set
  of temporary paths of a request.
- `Staging` (staging.dfy) holds the three mutators. `Cleanup` is `cleanup`,
  `MoveFiles` is `moveFiles`, and `ReplaceAlias` is the unlink-then-symlink
  step. Each is a method over the `FileStore` proved equal to a function on
  the tree. `Cleanup` and `MoveFiles` are loops, as in the source, with lemmas
  about their functions. `ReplaceAlias` is straight-line code whose function,
  `AliasReplaced`, is then used by the handler's end-to-end lemmas.
- `Verification` (verification.dfy) is `verifyFiles`. The external verifier
  is an oracle over the arguments of the `ssh-keygen` call. The checks
  complete in some order, a permutation of the pair indices, and each
  completion is processed in turn against the `pending` counter. The
  callback invocations are recorded as a sequence of signals.
- `Handler` (handler.dfy) has the check chain (`Screen`), the whole request
  as a function (`HandleSpec`), the imperative handler (`HandleUpload`) proved
  equal to it, and end-to-end lemmas.

Inputs the model takes as parameters:

- The verifier oracle stands for the `ssh-keygen` subprocess.
- The completion order stands for the scheduling of the child processes.
- The configuration (signers file, upload root) stands for the environment.

Behaviour of the code that the model keeps as written:

- Cleanup does not run on the invalid-identifier and invalid-directory
  exits. Those temporary uploads stay on disk
  (`Handler.InvalidIdentifierTouchesNothing`,
  `Handler.InvalidDirectoryTouchesNothing`).
- Files moved before a failing move stay moved; there is no rollback
  (`Handler.MoveFailureKeepsPartialBatch`).
- Only the first callback of `verifyFiles` decides the response.
- Two files of one request may have the same original name. The later
  rename overwrites the earlier file's target, so the earlier upload is lost,
  and the reply is still 200 (`Handler.DuplicateNameOverwrites`).
- In the model, a successful rename always leaves its target in place. So
  the existence check after each rename never throws
  (`Staging.RenameLeavesTarget`), and `moveFiles` fails only when
  `renameSync` itself throws.

## Model

| member | source | states |
|---|---|---|
| Validators.InClass | index.js:32 | a character is in a bracketed class iff one of its ranges contains it |
| Validators.Canonicalize | index.js:36 | the case folding of the `i` flag: a character is ASCII iff its canonical form is, so no non-ASCII character folds onto the ASCII class; an ASCII letter as canonical form comes only from itself or its lower-case partner |
| Validators.InClassIgnoreCase | index.js:36 | under the case-insensitive flag, a character matches iff some class member has the same canonical (upper-cased) form |
| Validators.SameCanonicalForm | index.js:36 | the characters with the same canonical form as c are exactly c and its other-case partner |
| Validators.ValidIdentifier | index.js:32 | definition: the anchored match of the identifier class, without the `i` flag; properties in `IdentifierAcceptsExactly` |
| Validators.ValidDirectory | index.js:36 | definition: the anchored match of the directory class, with the `i` flag; properties in `DirectoryAcceptsExactly` |
| Validators.FullMatchPlus | index.js:32 | the anchored `^[class]+$` match accepts exactly the non-empty strings whose every character is in the class |
| Validators.IdentifierClassExact | index.js:32 | the identifier class holds exactly A-Z, a-z, 0-9, `_`, `-`, `@` and `.` |
| Validators.DirectoryClassExact | index.js:36 | the directory class holds exactly the ASCII letters and digits |
| Validators.IdentifierAcceptsExactly | index.js:32 | the identifier check accepts iff the string is non-empty and every character is in A-Z, a-z, 0-9, `_`, `-`, `@`, `.` |
| Validators.DirectoryAcceptsExactly | index.js:36 | the directory check accepts iff the string is non-empty and every character is an ASCII letter or digit |
| Validators.DirectoryIgnoreCaseAddsNothing | index.js:36 | the `i` flag does not change which characters the directory class accepts |
| Validators.DirectoryIsPlainComponent | index.js:36-41 | an accepted directory has no `/`, no `\` and no `.`, so joining it onto the upload root cannot climb out of it |
| Validators.DirectoryIsIdentifier | index.js:32-36 | every accepted directory name is also an accepted identifier |
| Validators.IdentifierHasNoSeparator | index.js:32 | an accepted identifier contains no path separator |
| Validators.EmailIdentifierAccepted | index.js:32 | `alice@example.com` passes the identifier check |
| Validators.DotIdentifiersAccepted | index.js:32 | `.` and `..` pass the identifier check |
| Validators.SlashIdentifierRejected | index.js:32 | `a/b` and the empty string fail the identifier check |
| Validators.PlainDirectoryAccepted | index.js:36 | `build42` and `BUILD42` pass the directory check |
| Validators.TraversalDirectoryRejected | index.js:36 | `../etc`, `build-42` and `..` fail the directory check |
| FileSystem.Parent | index.js:65 | definition: `path.resolve(p, '..')`, the path without its last component (the root is its own parent); used by `Handler.AliasPath` |
| FileSystem.FileStore.Exists | index.js:79 | definition: `fs.existsSync`, membership of the path in the tree (also used for index.js:67, 85, 115 and 123); links are not followed |
| FileSystem.Join | index.js:41 | a joined path is one component longer than the directory, differs from it, and has it as parent |
| FileSystem.Renamed | index.js:121 | rename fails iff the source is missing, the destination is a directory, or the destination's parent is not a directory; on success the destination holds the source entry, the source is gone, and nothing else changes |
| FileSystem.FileStore.Unlink | index.js:80 | unlinking removes exactly that path |
| FileSystem.FileStore.Rename | index.js:121 | the store changes exactly as `Renamed` says, and `ok` reports whether it did |
| FileSystem.FileStore.MakeDirectory | index.js:115-117 | creating the missing destination adds exactly that directory |
| FileSystem.FileStore.MakeSymlink | index.js:70 | creating the link adds exactly a symbolic link to the target |
| Staging.AfterCleanup | index.js:76-89 | definition: the tree minus the temporary paths of the supplied files and signatures; properties in `CleanupRemovesOnlyTemps`, `CleanupIdempotent` |
| Uploads.TempPaths | index.js:76-89 | definition: the temporary paths of the files and signatures that were supplied, an absent field contributing none; used by `AfterCleanup` |
| Staging.UnlinkExisting | index.js:78-81 | after one forEach of cleanup, exactly the listed temporary paths are absent and every other entry is unchanged |
| Staging.Cleanup | index.js:76-89 | cleanup removes exactly the temporary paths of the files and signatures that were supplied (an absent field contributes none) |
| Staging.CleanupRemovesOnlyTemps | index.js:76-89 | after cleanup no file or signature temporary path exists, and every entry outside them is unchanged |
| Staging.CleanupIdempotent | index.js:76-89 | running cleanup twice gives the same tree as running it once |
| Staging.Target | index.js:120 | definition: `path.join(directory, file.originalname)`, one component appended to the destination; properties in `TargetsMeetIffSameName` |
| Staging.WithDirectory | index.js:114-117 | definition: the tree after the existence check and `mkdirSync` of the destination; properties in `MoveCleanBatch` |
| Staging.RenameEach | index.js:119-126 | definition: the forEach of moveFiles, renaming file by file and stopping at the first throw; properties in `FailureIsFinal`, `MoveFailureKeepsEarlierMoves`, `RenameEachRelocates` |
| Staging.Moved | index.js:113-127 | definition: moveFiles on a tree, `WithDirectory` then `RenameEach`; properties in `MoveCleanBatch` |
| Staging.MoveFiles | index.js:113-127 | moveFiles creates the destination if absent, then renames file by file, stopping at the first file that throws; the store and the failing index are those of `Moved` |
| Staging.FailureIsFinal | index.js:119-126 | once a file throws, later files are never renamed |
| Staging.RenameLeavesTarget | index.js:121-125 | after a successful rename the target exists, so the existence check does not throw |
| Staging.MoveFailureKeepsEarlierMoves | index.js:119-126 | when moveFiles throws at file k, the tree is exactly the one left by moving files 0..k-1 (no rollback), and it was the rename of file k that failed |
| Staging.TargetsMeetIffSameName | index.js:120 | two files land on the same target iff they have the same original name |
| Staging.RenameEachRelocates | index.js:119-126 | on a batch whose temporary uploads are distinct regular files that are neither a target nor the destination, and no target an existing directory (original names may repeat), the loop never throws, every target holds a file, namely the content of the last file with that name, no temporary path remains, and nothing else changes |
| Staging.MoveCleanBatch | index.js:113-127 | moveFiles on such a batch succeeds, leaves the destination a directory (created or reused), and relocates the whole batch into it, a repeated name keeping the last file's content |
| Staging.AliasReplaced | index.js:65-70 | definition: the tree with the link path set to a symbolic link to the destination; used by `HandleSpec` and `AllVerifiedPublishes` |
| Staging.ReplaceAlias | index.js:65-70 | after the alias step the link path is a symbolic link to the destination, whatever was there before, and nothing else changes |
| Verification.CallFor | index.js:98 | definition: the arguments of `ssh-keygen -Y verify -f <signers> -n file -s <signature path> -I <identifier>`, with the file's temporary path as the message piped to standard input |
| Verification.Outcomes | index.js:98-99 | definition: pair i's verdict is the verifier's answer on the call for file i and signature i; the pairing is used by `VerifyFiles` |
| Verification.Signals | index.js:99-105 | definition: the callbacks caused by the completions in order, against the `pending` counter; properties in `VerifiedIffEnoughPasses`, `FailedIffFailing`, `VerifiedAtMostOnce`, `FailedCount` |
| Verification.VerifyFiles | index.js:91-111 | the callback invocations are those of the pending counter starting at N, and success is signalled iff N > 0 and every pair verifies |
| Verification.Passes | index.js:105 | no more checks pass than have completed |
| Verification.PassesAll | index.js:105 | the pass count equals the number of completions iff every completion passed |
| Verification.VerifiedIffEnoughPasses | index.js:92-105 | success is signalled iff the counter starts at some p >= 1 and at least p completions pass |
| Verification.FailedIffFailing | index.js:99-102 | pair i calls back with an error iff it completed and failed |
| Verification.VerifiedAtMostOnce | index.js:105 | the success callback fires at most once |
| Verification.SuccessIffAllVerified | index.js:92-106 | with one completion per pair, success fires iff the batch is non-empty and every pair verifies |
| Verification.AllPassSignalsOnce | index.js:105 | when every completion passes and pending starts at their number, the only callback is one success, at the last completion |
| Verification.FirstSignalIsFailure | index.js:99-105 | if any pair fails, the first callback is an error and success never fires |
| Verification.SuccessIsSoleSignal | index.js:92-106 | if every pair verifies, the callback runs exactly once, with success |
| Verification.EmptyBatchNeverCallsBack | index.js:92-94 | with zero pairs the callback never runs |
| Verification.FailedCount | index.js:99-102 | pair i's error is signalled once per failed completion of i |
| Verification.EachFailureSignalledOnce | index.js:99-102 | each failing pair calls back with its error exactly once |
| Handler.Destination | index.js:41 | definition: `path.join(upload_path, directory)`; `Validators.DirectoryIsPlainComponent` shows it stays one level under the upload root |
| Handler.AliasPath | index.js:65-66 | definition: `path.join(path.resolve(upload_path, '..'), identifier)`; properties in `AllVerifiedPublishes` |
| Handler.Screen | index.js:27-46 | every rejection is a 400; a request passes the checks iff both fields are present, the identifier and directory are valid and the counts match |
| Handler.HandleSpec | index.js:23-74 | every reply is 200, 400 or 500 (or none); a 200 comes only with a valid identifier and directory, and the alias then links to the destination |
| Handler.HandleUpload | index.js:23-74 | the handler's reply and resulting filesystem are those of `HandleSpec` |
| Handler.MissingPartsCleansUp | index.js:27-30 | a missing files or signatures field gives 400 'Both files and signatures are required', after cleanup of what was supplied |
| Handler.InvalidIdentifierTouchesNothing | index.js:32-34 | with both fields present, a bad identifier gives 400 'Invalid identifier' whatever the directory, and the filesystem is unchanged (no cleanup) |
| Handler.InvalidDirectoryTouchesNothing | index.js:36-38 | with a valid identifier, a bad directory gives 400 'Invalid directory' and the filesystem is unchanged (no cleanup) |
| Handler.TraversalRefused | index.js:36-38 | directory `../etc` gives 400 'Invalid directory' before any filesystem call |
| Handler.CountMismatchCleansUp | index.js:43-46 | unequal counts give 400 'Mismatch between number of files and signatures', and no temporary path survives |
| Handler.VerificationFailureMovesNothing | index.js:48-53 | if any pair fails verification the reply is 500 'Error verifying file signature', and the only change is cleanup: nothing moved, alias untouched |
| Handler.NoReplyOnlyForEmptyBatch | index.js:48-73 | the handler replies to every request except one whose checks pass with zero pairs |
| Handler.ReplyIgnoresCompletionOrder | index.js:48-73 | the order in which verifications complete changes neither the reply nor the resulting filesystem |
| Handler.AllVerifiedMoves | index.js:48-72 | when all pairs verify, a move error gives 500 'Failed to move files' after cleanup; otherwise cleanup runs, the alias is replaced and the reply is 200 |
| Handler.MoveFailureKeepsPartialBatch | index.js:55-61 | a move error at file k replies 500, and the filesystem is the one left by moving files 0..k-1, less the temporary uploads (no rollback) |
| Handler.AllVerifiedPublishes | index.js:48-72 | a non-colliding request whose pairs all verify gets 200 {status: 'OK'}; each dir/originalname exists and holds the content of the last file with that name, no temporary upload remains, the destination is a directory and the alias links to it |
| Handler.DuplicateNameOverwrites | index.js:119-121 | when files i < j share an original name and j is the last of that name, the reply is 200 and the shared target holds file j's content: file i's upload is lost |

## Left out

- Express routing, multer's multipart parsing and its limit of 10 parts per field are not modelled. The request arrives already parsed, with each field present or absent. A request without any multipart body (`req.files` undefined) is not modelled.
- The body fields are modelled as strings. JavaScript's coercion of a missing field to the string `"undefined"`, which passes both checks, is not modelled.
- The `ssh-keygen -Y verify` subprocess, the piping of the file into its standard input, and the concurrency of the child processes are replaced by an oracle. Completions are processed one at a time in a given order. A check that never completes is not modelled.
- Startup is not modelled: loading the environment, checking that the signers file exists, creating the temp and upload directories, `process.exit` and `app.listen`. These are process setup and I/O.
- Logging through `console.error` is left out.
- Paths are sequences of components, and joining appends one component without normalisation. Node's `path.join` collapses `.` and `..`, so an identifier `.` or `..`, or an `originalname` holding separators, would name a different path than the model's.
- `existsSync` is modelled as map membership. It does not follow symbolic links, so a dangling link counts as present in the model.
- FileSystem.Renamed: the tree is flat and links are never followed. When the destination directory `<upload root>/<directory>` is a symbolic link to a directory, Node's `renameSync` writes through the link and the reply is 200. The model sees a non-directory parent, so the rename fails and the reply is 500 'Failed to move files'.
- FileSystem.FileStore.MakeDirectory: adds only the destination directory and assumes its parent, the upload root, exists (it is created at startup). `mkdirSync(..., {recursive: true})` would also recreate a missing upload root, and would throw if an ancestor were a regular file. The model does neither, and `WithDirectory` is the same simplification.
- Only `renameSync` can fail in the model: when the source is missing, the destination is a directory, or the destination's parent is not a directory. Other rename errors (across devices, permissions) are left out. Failures of `mkdirSync` are left out too.
- Staging.ReplaceAlias: removes whatever entry is at the alias path. In Node, `unlinkSync` throws on a directory there, and that exception would escape the callback. The model does not capture this.
- After the first error callback, later error callbacks from other failing pairs would run cleanup again and try to send a second response. Only the first callback's effect is modelled; the later ones are counted in `Verification.EachFailureSignalledOnce`.
- Cleanup unlinks temporary files that sibling verifications may still be reading. That interleaving is not modelled.
