/**
 The part of the host filesystem the upload handler touches, as Node's
 synchronous `fs` calls see it: a map from path to entry. A path is a
 sequence of components, so joining a name onto a directory appends one
 component. Existence is plain membership (symbolic links are not followed).
 */
module FileSystem {
  import opened Options

  type Path = seq<string>

  datatype Entry = File(content: seq<bv8>) | Directory | Symlink(target: Path)

  type Tree = map<Path, Entry>

  /** path.join(dir, name), for a name that is one component. */
  function Join(dir: Path, name: string): (p: Path)
    ensures Parent(p) == dir && p != dir && |p| == |dir| + 1
  {
    dir + [name]
  }

  /** path.resolve(p, '..'): the enclosing directory; the root is its own parent. */
  function Parent(p: Path): Path
  {
    if p == [] then [] else p[..|p| - 1]
  }

  predicate IsDirectory(t: Tree, p: Path)
  {
    p in t && t[p].Directory?
  }

  /**
   renameSync(src, dst) on a tree: it throws (None) when the source is missing,
   when the destination is an existing directory, or when the destination's
   parent is not a directory; otherwise the entry moves, replacing whatever was
   at the destination.
   */
  function Renamed(t: Tree, src: Path, dst: Path): (r: Option<Tree>)
    ensures r.Some? <==> src in t && !IsDirectory(t, dst) && IsDirectory(t, Parent(dst))
    ensures r.Some? ==> dst in r.value && r.value[dst] == t[src]
    ensures r.Some? && src != dst ==> src !in r.value
    ensures r.Some? ==> forall p :: p != src && p != dst ==>
              (p in r.value <==> p in t) && (p in t ==> r.value[p] == t[p])
  {
    if src in t && !IsDirectory(t, dst) && IsDirectory(t, Parent(dst)) then
      Some((t - {src})[dst := t[src]])
    else
      None
  }

  /** The filesystem the process sees, updated in place by each call. */
  class FileStore {
    var entries: Tree

    constructor (initial: Tree)
      ensures entries == initial
    {
      entries := initial;
    }

    /** fs.existsSync(p) */
    predicate Exists(p: Path)
      reads this
    {
      p in entries
    }

    /** fs.unlinkSync(p); every caller checks existence first. */
    method Unlink(p: Path)
      requires p in entries
      modifies this
      ensures entries == old(entries) - {p}
    {
      entries := entries - {p};
    }

    /** fs.renameSync(src, dst); `ok` is false where Node would throw. */
    method Rename(src: Path, dst: Path) returns (ok: bool)
      modifies this
      ensures ok == Renamed(old(entries), src, dst).Some?
      ensures entries == if ok then Renamed(old(entries), src, dst).value else old(entries)
    {
      var r := Renamed(entries, src, dst);
      ok := r.Some?;
      if ok {
        entries := r.value;
      }
    }

    /**
     fs.mkdirSync(p, { recursive: true }) for a path that does not exist yet and
     whose parent does (the ancestors of a destination exist from startup).
     */
    method MakeDirectory(p: Path)
      requires p !in entries
      modifies this
      ensures entries == old(entries)[p := Directory]
    {
      entries := entries[p := Directory];
    }

    /** fs.symlinkSync(target, link) where nothing is at `link`. */
    method MakeSymlink(target: Path, link: Path)
      requires link !in entries
      modifies this
      ensures entries == old(entries)[link := Entry.Symlink(target)]
    {
      entries := entries[link := Entry.Symlink(target)];
    }
  }
}
