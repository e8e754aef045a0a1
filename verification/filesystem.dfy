/**
 * The part of the file system the server touches through `fs-extra`:
 * `mkdirp` (create a directory and its missing ancestors), `writeFile`
 * and `remove` (delete a whole tree). A file system is a map from absolute
 * paths, given as their segments, to a directory or a file's bytes; the
 * root directory is implicit.
 */
module Files {
  import opened Wrappers

  type Bytes = seq<bv8>

  /** An absolute path as its list of names; `[]` is the root. */
  type Path = seq<string>

  datatype Node = Dir | File(data: Bytes)

  datatype FsError =
    | NotADirectory(at: Path)   // a file stands where a directory is needed
    | IsADirectory(at: Path)    // a directory stands where a file is to be written
    | NoParent(at: Path)        // the parent directory of a file to write is missing

  function Parent(p: Path): Path
    requires |p| >= 1
  {
    p[..|p| - 1]
  }

  predicate IsPrefix(q: Path, p: Path) {
    |q| <= |p| && p[..|q|] == q
  }

  /** Every entry has a non-root path whose parent is the root or a directory entry. */
  ghost predicate TreeClosed(m: map<Path, Node>) {
    forall p :: p in m ==> |p| >= 1 && (|p| >= 2 ==> Parent(p) in m && m[Parent(p)].Dir?)
  }

  /** Some ancestor of `p`, or `p` itself, is a file. */
  predicate BlockedBy(m: map<Path, Node>, p: Path) {
    exists k :: 1 <= k <= |p| && p[..k] in m && m[p[..k]].File?
  }

  /**
   * `fs.mkdirp(p)`: create `p` and every missing ancestor as directories. It
   * fails, changing nothing, when one of them is a file.
   */
  function MakeDirsIn(m: map<Path, Node>, p: Path): (r: Result<map<Path, Node>, FsError>)
    ensures r.Err? <==> BlockedBy(m, p)
    ensures r.Ok? ==> forall k :: 1 <= k <= |p| ==> p[..k] in r.value && r.value[p[..k]].Dir?
    ensures r.Ok? ==> forall q :: q in m ==> q in r.value && r.value[q] == m[q]
    ensures r.Ok? ==> forall q :: q in r.value && q !in m ==> 1 <= |q| && IsPrefix(q, p) && r.value[q].Dir?
    decreases |p|
  {
    if |p| == 0 then Ok(m)
    else
      var up := MakeDirsIn(m, Parent(p));
      assert forall k :: 1 <= k <= |p| - 1 ==> Parent(p)[..k] == p[..k];
      match up
      case Err(e) => Err(e)
      case Ok(m1) =>
        assert p[..|p|] == p;
        if p !in m1 then Ok(m1[p := Dir])
        else if m1[p].Dir? then Ok(m1)
        else Err(NotADirectory(p))
  }

  /** `fs.writeFile(p, data)`: create or replace the file `p`, whose parent directory must exist. */
  function WriteFileIn(m: map<Path, Node>, p: Path, data: Bytes): (r: Result<map<Path, Node>, FsError>)
    ensures r.Ok? <==> |p| >= 1 && !(p in m && m[p].Dir?) && (|p| >= 2 ==> Parent(p) in m && m[Parent(p)].Dir?)
    ensures r.Ok? ==> r.value.Keys == m.Keys + {p} && r.value[p] == File(data)
    ensures r.Ok? ==> forall q :: q in m && q != p ==> r.value[q] == m[q]
  {
    if |p| == 0 || (p in m && m[p].Dir?) then Err(IsADirectory(p))
    else if |p| >= 2 && !(Parent(p) in m && m[Parent(p)].Dir?) then Err(NoParent(p))
    else Ok(m[p := File(data)])
  }

  /** `fs.remove(p)`: delete `p` and everything below it; a missing `p` is not an error. */
  function RemoveIn(m: map<Path, Node>, p: Path): (r: map<Path, Node>)
    ensures forall q :: q in r <==> q in m && !IsPrefix(p, q)
    ensures forall q :: q in r ==> r[q] == m[q]
  {
    map q | q in m && !IsPrefix(p, q) :: m[q]
  }

  /** In a closed tree, every proper ancestor of an entry is a directory entry. */
  lemma {:induction false} AncestorsAreDirs(m: map<Path, Node>, p: Path)
    requires TreeClosed(m) && p in m
    ensures forall k :: 1 <= k < |p| ==> p[..k] in m && m[p[..k]].Dir?
    decreases |p|
  {
    if |p| >= 2 {
      var up := Parent(p);
      AncestorsAreDirs(m, up);
      assert forall k :: 1 <= k < |up| ==> up[..k] == p[..k];
    }
  }

  lemma MakeDirsKeepsTree(m: map<Path, Node>, p: Path)
    requires TreeClosed(m)
    requires MakeDirsIn(m, p).Ok?
    ensures TreeClosed(MakeDirsIn(m, p).value)
  {
    var r := MakeDirsIn(m, p).value;
    forall q | q in r && |q| >= 2
      ensures Parent(q) in r && r[Parent(q)].Dir?
    {
      if q !in m {
        assert p[..|q|] == q;
        assert Parent(q) == p[..|q| - 1];
      }
    }
  }

  lemma WriteFileKeepsTree(m: map<Path, Node>, p: Path, data: Bytes)
    requires TreeClosed(m)
    requires WriteFileIn(m, p, data).Ok?
    ensures TreeClosed(WriteFileIn(m, p, data).value)
  {
    var r := WriteFileIn(m, p, data).value;
    forall q | q in r && |q| >= 2
      ensures Parent(q) in r && r[Parent(q)].Dir?
    {
      if q != p {
        assert Parent(q) != p;
      }
    }
  }

  /** Removing a whole subtree keeps every remaining entry's parent. */
  lemma RemoveKeepsTree(m: map<Path, Node>, p: Path)
    requires TreeClosed(m)
    ensures TreeClosed(RemoveIn(m, p))
  {
    var r := RemoveIn(m, p);
    forall q | q in r && |q| >= 2
      ensures Parent(q) in r
    {
    }
  }

  /** The file system, which the server changes in place. */
  class FileSystem {
    var nodes: map<Path, Node>

    ghost predicate Valid()
      reads this
    {
      TreeClosed(nodes)
    }

    constructor (initial: map<Path, Node>)
      requires TreeClosed(initial)
      ensures Valid() && nodes == initial
    {
      nodes := initial;
    }

    method MakeDirs(p: Path) returns (err: Option<FsError>)
      requires Valid()
      modifies this
      ensures Valid()
      ensures err.None? <==> MakeDirsIn(old(nodes), p).Ok?
      ensures nodes == if err.None? then MakeDirsIn(old(nodes), p).value else old(nodes)
      ensures err.Some? ==> err.value == MakeDirsIn(old(nodes), p).error
    {
      match MakeDirsIn(nodes, p)
      case Ok(m) =>
        MakeDirsKeepsTree(nodes, p);
        nodes := m;
        err := None;
      case Err(e) =>
        err := Some(e);
    }

    method WriteFile(p: Path, data: Bytes) returns (err: Option<FsError>)
      requires Valid()
      modifies this
      ensures Valid()
      ensures err.None? <==> WriteFileIn(old(nodes), p, data).Ok?
      ensures nodes == if err.None? then WriteFileIn(old(nodes), p, data).value else old(nodes)
    {
      match WriteFileIn(nodes, p, data)
      case Ok(m) =>
        WriteFileKeepsTree(nodes, p, data);
        nodes := m;
        err := None;
      case Err(e) =>
        err := Some(e);
    }

    method Remove(p: Path)
      requires Valid()
      modifies this
      ensures Valid()
      ensures nodes == RemoveIn(old(nodes), p)
    {
      RemoveKeepsTree(nodes, p);
      nodes := RemoveIn(nodes, p);
    }
  }
}
