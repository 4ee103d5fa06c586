/**
 The uploaded parts of a request, as the multipart layer hands them over:
 each part has a temporary path on disk and the client's file name.
 */
module Uploads {
  import opened Options
  import opened FileSystem

  /** One uploaded part as the multipart layer hands it over: its temporary path and the client's file name. */
  datatype Upload = Upload(path: Path, originalname: string)

  function PathsOf(uploads: seq<Upload>): set<Path>
  {
    set u | u in uploads :: u.path
  }

  /** Every temporary path of a request; an absent field (undefined) contributes none. */
  function TempPaths(files: Option<seq<Upload>>, signatures: Option<seq<Upload>>): set<Path>
  {
    (if files.Some? then PathsOf(files.value) else {}) +
    (if signatures.Some? then PathsOf(signatures.value) else {})
  }

  lemma PathsOfExcludes(files: seq<Upload>, p: Path)
    requires forall i :: 0 <= i < |files| ==> files[i].path != p
    ensures p !in PathsOf(files)
  {
    forall v | v in files ensures v.path != p {
      var j :| 0 <= j < |files| && files[j] == v;
    }
  }
}
