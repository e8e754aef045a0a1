/**
 * The archive `/generate-proof-with-verifier` builds with `new JSZip()` and
 * `zip.file(name, data)`: an ordered set of entry names, each holding a
 * folder or a file's data. Setting a name that is already present replaces
 * what it holds and keeps its place; a new name goes at the end.
 *
 * `zip.file` creates folders by default: before a name is set, each folder
 * on its path that is not present yet is added as a folder entry, the
 * outermost first (JSZip's `fileAdd`, `folderAdd` and `parentFolder`).
 */
module ZipWriter {
  import opened Wrappers
  import opened JsStrings
  import opened Files

  /** What an entry holds. */
  datatype Entry = Folder | FileData(data: Bytes)

  /** The entries of an archive: names in insertion order and what each name holds. */
  datatype Listing = Listing(names: seq<string>, contents: map<string, Entry>)

  /** No name twice, and exactly the listed names hold something. */
  ghost predicate WellFormed(l: Listing) {
    (forall i, j :: 0 <= i < j < |l.names| ==> l.names[i] != l.names[j]) &&
    (forall n :: n in l.contents <==> n in l.names)
  }

  const Empty := Listing([], map[])

  /** Setting one entry of the archive's object: a new name goes at the end, a present one keeps its place. */
  function Put(l: Listing, name: string, e: Entry): (r: Listing)
    ensures r.contents == l.contents[name := e]
    ensures |l.names| <= |r.names| && r.names[..|l.names|] == l.names
    ensures name !in l.contents ==> r.names == l.names + [name]
  {
    Listing(if name in l.contents then l.names else l.names + [name], l.contents[name := e])
  }

  /** Setting a name keeps a listing well formed. */
  lemma PutWellFormed(l: Listing, name: string, e: Entry)
    requires WellFormed(l)
    ensures WellFormed(Put(l, name, e))
  {
  }

  /** `forceTrailingSlash`. */
  function WithSlash(p: string): (r: string)
    ensures EndsWith(r, "/") && StartsWith(r, p) && |r| <= |p| + 1
  {
    if EndsWith(p, "/") then p else p + "/"
  }

  /**
   * `parentFolder`: one trailing slash dropped, then everything before the
   * last slash; nothing when that slash is the first character or absent.
   * A parent is a proper prefix of the path that a slash follows.
   */
  function ParentFolder(path: string): (r: string)
    ensures r != "" ==> |r| + 2 <= |path| && r == path[..|r|] && path[|r|] == '/'
  {
    var p := if EndsWith(path, "/") then path[..|path| - 1] else path;
    assert !EndsWith(path, "/") && |path| > 0 ==> path[|path| - 1] != '/' by {
      if !EndsWith(path, "/") && |path| > 0 {
        assert path[|path| - 1..] != "/";
        assert path[|path| - 1..] == [path[|path| - 1]];
      }
    }
    match LastIndexOf(p, '/')
    case Some(i) => if i > 0 then p[..i] else ""
    case None => ""
  }

  /**
   * `fileAdd(name, e)` with folders created: the folders on the name's path
   * (`folderAdd` of its parent), then the name itself holding `e`.
   */
  function FileAdd(l: Listing, name: string, e: Entry): Listing
    decreases |name|, 0
  {
    var parent := ParentFolder(name);
    Put(if parent == "" then l else FolderAdd(l, parent), name, e)
  }

  /** `folderAdd(p)`: nothing when `p/` is present, otherwise `fileAdd` of the folder `p/`. */
  function FolderAdd(l: Listing, p: string): Listing
    decreases |p| + 1, 1
  {
    var name := WithSlash(p);
    if name in l.contents then l else FileAdd(l, name, Folder)
  }

  /** `zip.file(name, data)`. */
  function Add(l: Listing, name: string, data: Bytes): Listing {
    FileAdd(l, name, FileData(data))
  }

  /** `folder` is a folder name on `path`: it ends with a slash and `path` starts with it. */
  predicate FolderOn(folder: string, path: string) {
    EndsWith(folder, "/") && StartsWith(path, folder)
  }

  /** The folder name made from a parent is on the path it came from, and shorter. */
  lemma ParentIsOnPath(name: string)
    requires ParentFolder(name) != ""
    ensures FolderOn(WithSlash(ParentFolder(name)), name) && |WithSlash(ParentFolder(name))| < |name|
  {
    var parent := ParentFolder(name);
    if !EndsWith(parent, "/") {
      assert name[..|parent| + 1] == parent + "/";
    }
  }

  /** A folder on a folder on a path is on that path. */
  lemma FolderOnTrans(a: string, b: string, c: string)
    requires FolderOn(a, b) && StartsWith(c, b)
    ensures FolderOn(a, c)
  {
    assert c[..|a|] == c[..|b|][..|a|];
  }

  /**
   * `fileAdd` keeps every earlier name in its place and every other entry's
   * content, keeps the listing well formed, and leaves `name` holding `e`;
   * the only other names it adds are folders on the name's path.
   */
  lemma {:induction false} FileAddSets(l: Listing, name: string, e: Entry)
    ensures var r := FileAdd(l, name, e);
      |l.names| <= |r.names| && r.names[..|l.names|] == l.names &&
      (WellFormed(l) ==> WellFormed(r)) &&
      name in r.contents && r.contents[name] == e &&
      (forall n :: n in l.contents && n != name ==> n in r.contents && r.contents[n] == l.contents[n]) &&
      (forall n :: n in r.contents && n !in l.contents && n != name ==> r.contents[n] == Folder && FolderOn(n, name))
    decreases |name|, 0
  {
    var parent := ParentFolder(name);
    var mid := if parent == "" then l else FolderAdd(l, parent);
    if parent != "" {
      ParentIsOnPath(name);
      var folder := WithSlash(parent);
      if folder !in l.contents {
        FileAddSets(l, folder, Folder);
        assert mid == FileAdd(l, folder, Folder);
        forall n | n in mid.contents && n !in l.contents
          ensures FolderOn(n, name) && n != name
        {
          if n != folder {
            FolderOnTrans(n, folder, name);
          }
        }
      } else {
        assert mid == l;
      }
    }
    assert FileAdd(l, name, e) == Put(mid, name, e);
    PutAfterFolders(l, mid, name, e);
    if WellFormed(l) {
      FileAddWellFormed(l, name, e);
    }
  }

  /** Setting `name` after adding only folders on its path: the earlier names and contents stay, and the new names other than `name` are those folders. */
  lemma PutAfterFolders(l: Listing, mid: Listing, name: string, e: Entry)
    requires |l.names| <= |mid.names| && mid.names[..|l.names|] == l.names
    requires forall n :: n in l.contents ==> n in mid.contents && mid.contents[n] == l.contents[n]
    requires forall n :: n in mid.contents && n !in l.contents ==> mid.contents[n] == Folder && FolderOn(n, name)
    ensures var r := Put(mid, name, e);
      |l.names| <= |r.names| && r.names[..|l.names|] == l.names &&
      name in r.contents && r.contents[name] == e &&
      (forall n :: n in l.contents && n != name ==> n in r.contents && r.contents[n] == l.contents[n]) &&
      (forall n :: n in r.contents && n !in l.contents && n != name ==> r.contents[n] == Folder && FolderOn(n, name))
  {
    var r := Put(mid, name, e);
    assert r.names[..|l.names|] == r.names[..|mid.names|][..|l.names|];
  }

  /** `fileAdd` keeps a listing well formed. */
  lemma {:induction false} FileAddWellFormed(l: Listing, name: string, e: Entry)
    requires WellFormed(l)
    ensures WellFormed(FileAdd(l, name, e))
    decreases |name|, 0
  {
    var parent := ParentFolder(name);
    var mid := if parent == "" then l else FolderAdd(l, parent);
    if parent != "" {
      var folder := WithSlash(parent);
      ParentIsOnPath(name);
      if folder !in l.contents {
        FileAddWellFormed(l, folder, Folder);
      }
    }
    assert WellFormed(mid);
    PutWellFormed(mid, name, e);
  }

  /** `zip.file(name, data)` leaves the folder above `name` present. */
  lemma AddMakesParent(l: Listing, name: string, data: Bytes)
    requires ParentFolder(name) != ""
    ensures WithSlash(ParentFolder(name)) in Add(l, name, data).contents
  {
    var parent := ParentFolder(name);
    var folder := WithSlash(parent);
    ParentIsOnPath(name);
    var above := FolderAdd(l, parent);
    if folder !in l.contents {
      assert above == FileAdd(l, folder, Folder);
      FileAddSets(l, folder, Folder);
    }
    assert folder in above.contents && folder != name;
    assert Add(l, name, data) == Put(above, name, FileData(data));
  }

  /** Adding each (name, data) pair in turn. */
  function AddAll(l: Listing, entries: seq<(string, Bytes)>): Listing
    decreases |entries|
  {
    if |entries| == 0 then l
    else
      var last := entries[|entries| - 1];
      Add(AddAll(l, entries[..|entries| - 1]), last.0, last.1)
  }

  lemma {:induction false} AddAllAppend(l: Listing, xs: seq<(string, Bytes)>, ys: seq<(string, Bytes)>)
    ensures AddAll(l, xs + ys) == AddAll(AddAll(l, xs), ys)
    decreases |ys|
  {
    if |ys| == 0 {
      assert xs + ys == xs;
    } else {
      var init := ys[..|ys| - 1];
      assert (xs + ys)[..|xs + ys| - 1] == xs + init;
      assert (xs + ys)[|xs + ys| - 1] == ys[|ys| - 1];
      AddAllAppend(l, xs, init);
    }
  }

  /** Adding entries to a well-formed listing keeps it well formed, and the earlier names keep their places. */
  lemma {:induction false} AddAllWellFormed(l: Listing, entries: seq<(string, Bytes)>)
    requires WellFormed(l)
    ensures WellFormed(AddAll(l, entries))
    ensures |l.names| <= |AddAll(l, entries).names| && AddAll(l, entries).names[..|l.names|] == l.names
    decreases |entries|
  {
    if |entries| > 0 {
      var last := entries[|entries| - 1];
      AddAllWellFormed(l, entries[..|entries| - 1]);
      FileAddSets(AddAll(l, entries[..|entries| - 1]), last.0, FileData(last.1));
    }
  }

  /** After adding entries, the earlier names and every added name are present. */
  lemma {:induction false} AddAllKeys(l: Listing, entries: seq<(string, Bytes)>)
    ensures var r := AddAll(l, entries);
      (forall n :: n in l.contents ==> n in r.contents) &&
      (forall k :: 0 <= k < |entries| ==> entries[k].0 in r.contents)
    decreases |entries|
  {
    if |entries| > 0 {
      var init := entries[..|entries| - 1];
      var last := entries[|entries| - 1];
      AddAllKeys(l, init);
      FileAddSets(AddAll(l, init), last.0, FileData(last.1));
      assert forall k :: 0 <= k < |init| ==> init[k] == entries[k];
    }
  }

  /** Every new name that none of the added entries carries is a folder on the path of one of them. */
  lemma {:induction false} AddAllNewFolders(l: Listing, entries: seq<(string, Bytes)>)
    ensures var r := AddAll(l, entries);
      forall n :: n in r.contents && n !in l.contents && (forall k :: 0 <= k < |entries| ==> entries[k].0 != n) ==>
        r.contents[n] == Folder && exists k :: 0 <= k < |entries| && FolderOn(n, entries[k].0)
    decreases |entries|
  {
    if |entries| > 0 {
      var init := entries[..|entries| - 1];
      var last := entries[|entries| - 1];
      var prev := AddAll(l, init);
      var r := AddAll(l, entries);
      AddAllNewFolders(l, init);
      FileAddSets(prev, last.0, FileData(last.1));
      forall n | n in r.contents && n !in l.contents && (forall k :: 0 <= k < |entries| ==> entries[k].0 != n)
        ensures r.contents[n] == Folder && exists k :: 0 <= k < |entries| && FolderOn(n, entries[k].0)
      {
        assert n != last.0 by { assert entries[|entries| - 1].0 != n; }
        if n in prev.contents {
          assert forall k :: 0 <= k < |init| ==> init[k].0 != n by {
            forall k | 0 <= k < |init| ensures init[k].0 != n { assert init[k] == entries[k]; }
          }
          var k :| 0 <= k < |init| && FolderOn(n, init[k].0);
          assert init[k] == entries[k];
        } else {
          assert FolderOn(n, entries[|entries| - 1].0);
        }
      }
    }
  }

  /** A name none of the added entries carries keeps what it holds. */
  lemma {:induction false} AddAllKeeps(l: Listing, entries: seq<(string, Bytes)>)
    ensures forall n :: n in l.contents && (forall k :: 0 <= k < |entries| ==> entries[k].0 != n) ==>
      n in AddAll(l, entries).contents && AddAll(l, entries).contents[n] == l.contents[n]
    decreases |entries|
  {
    if |entries| > 0 {
      var init := entries[..|entries| - 1];
      var last := entries[|entries| - 1];
      AddAllKeeps(l, init);
      FileAddSets(AddAll(l, init), last.0, FileData(last.1));
      assert forall k :: 0 <= k < |init| ==> init[k] == entries[k];
    }
  }

  /** An entry that no later entry renames holds its data once all are added. */
  lemma {:induction false} AddAllLastWins(l: Listing, entries: seq<(string, Bytes)>, k: nat)
    requires k < |entries| && forall j :: k < j < |entries| ==> entries[j].0 != entries[k].0
    ensures entries[k].0 in AddAll(l, entries).contents && AddAll(l, entries).contents[entries[k].0] == FileData(entries[k].1)
    decreases |entries|
  {
    var init := entries[..|entries| - 1];
    var last := entries[|entries| - 1];
    FileAddSets(AddAll(l, init), last.0, FileData(last.1));
    if k < |entries| - 1 {
      assert last.0 != entries[k].0;
      AddAllLastWins(l, init, k);
    }
  }

  /** The archive object, filled in step by step. */
  class ZipFile {
    var names: seq<string>
    var contents: map<string, Entry>

    function Listed(): Listing
      reads this
    {
      Listing(names, contents)
    }

    constructor ()
      ensures Listed() == Empty
    {
      names := [];
      contents := map[];
    }

    /** `this.files[name] = object`. */
    method Set(name: string, e: Entry)
      modifies this
      ensures Listed() == Put(old(Listed()), name, e)
    {
      if name !in contents {
        names := names + [name];
      }
      contents := contents[name := e];
    }

    /** `fileAdd(name, e)` with folders created. */
    method FileAddEntry(name: string, e: Entry)
      modifies this
      ensures Listed() == FileAdd(old(Listed()), name, e)
      decreases |name|, 0
    {
      var parent := ParentFolder(name);
      if parent != "" {
        FolderAddEntry(parent);
      }
      Set(name, e);
    }

    /** `folderAdd(p)`. */
    method FolderAddEntry(p: string)
      modifies this
      ensures Listed() == FolderAdd(old(Listed()), p)
      decreases |p| + 1, 1
    {
      var name := WithSlash(p);
      if name !in contents {
        FileAddEntry(name, Folder);
      }
    }

    /** `zip.file(name, data)`. */
    method AddFile(name: string, data: Bytes)
      modifies this
      ensures Listed() == Add(old(Listed()), name, data)
    {
      FileAddEntry(name, FileData(data));
    }
  }

  // ---------------------------------------------------------------------------
  // Parent folders of the archive's names
  // ---------------------------------------------------------------------------

  /** The parent of `dir/b`, and of the folder `dir/b/`, is `dir`, for a slash-free `b`. */
  lemma ParentOfChild(dir: string, b: string)
    requires b != "" && '/' !in b
    ensures ParentFolder(dir + "/" + b) == dir
    ensures ParentFolder(dir + "/" + b + "/") == dir
  {
    var p := dir + "/" + b;
    assert p[|p| - 1] == b[|b| - 1];
    assert !EndsWith(p, "/") by {
      assert p[|p| - 1..] == [p[|p| - 1]];
    }
    assert forall j :: |dir| < j < |p| ==> p[j] == b[j - |dir| - 1];
    var i := LastIndexOf(p, '/');
    assert p[|dir|] == '/';
    assert i == Some(|dir|);
    assert p[..|dir|] == dir;
    var q := p + "/";
    assert EndsWith(q, "/");
    assert q[..|q| - 1] == p;
  }

  /** A slash-free name, and the folder it names, have no parent. */
  lemma ParentOfTop(b: string)
    requires '/' !in b
    ensures ParentFolder(b) == "" && ParentFolder(b + "/") == ""
  {
    if |b| > 0 {
      assert !EndsWith(b, "/") by {
        assert b[|b| - 1..] == [b[|b| - 1]];
      }
    }
    var q := b + "/";
    assert EndsWith(q, "/");
    assert q[..|q| - 1] == b;
  }

  /** A slash-free name without a trailing slash gets one. */
  lemma SlashAppended(s: string)
    requires s != "" && s[|s| - 1] != '/'
    ensures WithSlash(s) == s + "/"
  {
    assert s[|s| - 1..] == [s[|s| - 1]];
  }

  /** `zip.file` of a slash-free name sets that name alone. */
  lemma AddTop(l: Listing, name: string, data: Bytes)
    requires '/' !in name
    ensures Add(l, name, data) == Put(l, name, FileData(data))
  {
    ParentOfTop(name);
  }

  /** `folderAdd` without folders above: the folder unless present. */
  function WithFolder(l: Listing, folder: string): Listing {
    if folder in l.contents then l else Put(l, folder, Folder)
  }

  /**
   * `zip.file` of `d1/d2/f`: the folder `d1/` unless present, then
   * `d1/d2/` unless present, then the name; when `f` is empty the name is
   * the folder `d1/d2/` itself, set to hold the data.
   */
  lemma AddTwoDeep(l: Listing, d1: string, d2: string, f: string, data: Bytes)
    requires d1 != "" && d2 != "" && '/' !in d1 && '/' !in d2 && '/' !in f
    ensures var top := d1 + "/";
      var sub := top + d2 + "/";
      Add(l, sub + f, data) ==
        Put(if f == "" then WithFolder(l, top) else if sub in l.contents then l else Put(WithFolder(l, top), sub, Folder),
            sub + f, FileData(data))
  {
    var top := d1 + "/";
    var sub := top + d2 + "/";
    var dir2 := d1 + "/" + d2;
    assert sub == dir2 + "/";
    ParentOfTop(d1);
    SlashAppended(d1);
    ParentOfChild(d1, d2);
    assert FolderAdd(l, d1) == WithFolder(l, top);
    if f == "" {
      assert sub + f == sub;
    } else {
      ParentOfChild(dir2, f);
      assert sub + f == dir2 + "/" + f;
      assert dir2[|dir2| - 1] == d2[|d2| - 1];
      SlashAppended(dir2);
      assert FolderAdd(l, dir2) == if sub in l.contents then l else Put(WithFolder(l, top), sub, Folder);
    }
  }

  // ---------------------------------------------------------------------------
  // The verifier archive's layout
  // ---------------------------------------------------------------------------

  const ProofName := "proof"
  const VkName := "vk"
  const VerifierDir := "verifier"
  const VerifierFolder := VerifierDir + "/"
  const SolidityFolder := VerifierFolder + "solidity" + "/"
  const SolidityName := SolidityFolder + "Verifier.sol"
  const CairoFolder := VerifierFolder + "cairo" + "/"

  /** The names every verifier archive starts with: the three files and the two folders `zip.file` creates. */
  const FixedNames := [ProofName, VkName, VerifierFolder, SolidityFolder, SolidityName]

  /** The pieces of the archive's names hold no slash. */
  lemma PlainPieces()
    ensures '/' !in ProofName && '/' !in VkName && '/' !in VerifierDir
    ensures '/' !in "solidity" && '/' !in "Verifier.sol" && '/' !in "cairo"
  {
  }

  /** The three files every verifier archive starts with. */
  function FixedEntries(proof: Bytes, vk: Bytes, solidity: Bytes): seq<(string, Bytes)> {
    [(ProofName, proof), (VkName, vk), (SolidityName, solidity)]
  }

  /** Folding the three fixed entries is adding them one after another. */
  lemma FixedByAdds(proof: Bytes, vk: Bytes, solidity: Bytes)
    ensures AddAll(Empty, FixedEntries(proof, vk, solidity)) ==
            Add(Add(Add(Empty, ProofName, proof), VkName, vk), SolidityName, solidity)
  {
    var fixed := FixedEntries(proof, vk, solidity);
    var two := fixed[..2];
    var one := two[..1];
    assert one[..0] == [];
    assert AddAll(Empty, one) == Add(Empty, ProofName, proof);
  }

  /** A name in the Cairo folder: `verifier/cairo/` and a slash-free rest. */
  predicate InCairoFolder(n: string) {
    StartsWith(n, CairoFolder) && '/' !in n[|CairoFolder|..]
  }

  /** A name under `verifier/cairo/` is none of the fixed names. */
  lemma CairoNameIsNew(n: string)
    requires StartsWith(n, CairoFolder)
    ensures n !in FixedNames
  {
    assert n[9] == CairoFolder[9] == 'c';
    assert SolidityName[9] == SolidityFolder[9] == 's';
  }

  /** The five fixed names are pairwise distinct, and none is `verifier/cairo/`. */
  lemma FixedNamesDistinct()
    ensures forall i, j :: 0 <= i < j < |FixedNames| ==> FixedNames[i] != FixedNames[j]
    ensures CairoFolder !in FixedNames
  {
    assert |ProofName| == 5 && |VkName| == 2 && |VerifierFolder| == 9;
    assert |SolidityFolder| == 18 && |SolidityName| == 30 && |CairoFolder| == 15;
  }

  /** The fixed names set one after another, each new. */
  function FixedPuts(proof: Bytes, vk: Bytes, solidity: Bytes): Listing {
    var l2 := Put(Put(Empty, ProofName, FileData(proof)), VkName, FileData(vk));
    Put(Put(Put(l2, VerifierFolder, Folder), SolidityFolder, Folder), SolidityName, FileData(solidity))
  }

  /** Setting five distinct names in turn on an empty listing lists them in that order, each holding its entry. */
  lemma PutFive(n1: string, n2: string, n3: string, n4: string, n5: string,
                e1: Entry, e2: Entry, e3: Entry, e4: Entry, e5: Entry)
    requires n1 != n2 && n1 != n3 && n1 != n4 && n1 != n5
    requires n2 != n3 && n2 != n4 && n2 != n5
    requires n3 != n4 && n3 != n5 && n4 != n5
    ensures var l := Put(Put(Put(Put(Put(Empty, n1, e1), n2, e2), n3, e3), n4, e4), n5, e5);
      l.names == [n1, n2, n3, n4, n5] &&
      l.contents[n1] == e1 && l.contents[n2] == e2 && l.contents[n3] == e3 &&
      l.contents[n4] == e4 && l.contents[n5] == e5
  {
    var l1 := Put(Empty, n1, e1);
    var l2 := Put(l1, n2, e2);
    var l3 := Put(l2, n3, e3);
    var l4 := Put(l3, n4, e4);
    assert l2.names == [n1, n2];
    assert l3.names == [n1, n2, n3];
    assert l4.names == [n1, n2, n3, n4];
  }

  /** Setting the fixed names in turn lists them in that order, each holding its data. */
  lemma FixedPutsListing(proof: Bytes, vk: Bytes, solidity: Bytes)
    ensures var base := FixedPuts(proof, vk, solidity);
      base.names == FixedNames && WellFormed(base) &&
      base.contents[ProofName] == FileData(proof) && base.contents[VkName] == FileData(vk) &&
      base.contents[VerifierFolder] == Folder && base.contents[SolidityFolder] == Folder &&
      base.contents[SolidityName] == FileData(solidity)
  {
    FixedNamesDistinct();
    assert FixedNames[0] != FixedNames[1] && FixedNames[0] != FixedNames[2] && FixedNames[0] != FixedNames[3];
    assert FixedNames[0] != FixedNames[4] && FixedNames[1] != FixedNames[2] && FixedNames[1] != FixedNames[3];
    assert FixedNames[1] != FixedNames[4] && FixedNames[2] != FixedNames[3] && FixedNames[2] != FixedNames[4];
    assert FixedNames[3] != FixedNames[4];
    PutFive(ProofName, VkName, VerifierFolder, SolidityFolder, SolidityName,
            FileData(proof), FileData(vk), Folder, Folder, FileData(solidity));
    var l1 := Put(Empty, ProofName, FileData(proof));
    var l2 := Put(l1, VkName, FileData(vk));
    var l3 := Put(l2, VerifierFolder, Folder);
    var l4 := Put(l3, SolidityFolder, Folder);
    PutWellFormed(Empty, ProofName, FileData(proof));
    PutWellFormed(l1, VkName, FileData(vk));
    PutWellFormed(l2, VerifierFolder, Folder);
    PutWellFormed(l3, SolidityFolder, Folder);
    PutWellFormed(l4, SolidityName, FileData(solidity));
  }

  /** `zip.file` of the three fixed files sets the five fixed names in turn. */
  lemma FixedByPuts(proof: Bytes, vk: Bytes, solidity: Bytes)
    ensures AddAll(Empty, FixedEntries(proof, vk, solidity)) == FixedPuts(proof, vk, solidity)
  {
    PlainPieces();
    FixedByAdds(proof, vk, solidity);
    AddTop(Empty, ProofName, proof);
    var l1 := Put(Empty, ProofName, FileData(proof));
    AddTop(l1, VkName, vk);
    var l2 := Put(l1, VkName, FileData(vk));
    FixedNamesDistinct();
    assert VerifierFolder !in l2.contents && SolidityFolder !in l2.contents;
    AddTwoDeep(l2, VerifierDir, "solidity", "Verifier.sol", solidity);
  }

  /**
   * The archive after the three fixed files: `proof`, `vk`, then the two
   * folders on the Solidity file's path and the Solidity file, each holding
   * its data; no Cairo name is present yet.
   */
  lemma FixedStart(proof: Bytes, vk: Bytes, solidity: Bytes, cairo: seq<(string, Bytes)>) returns (base: Listing)
    requires forall k :: 0 <= k < |cairo| ==> StartsWith(cairo[k].0, CairoFolder)
    ensures base == AddAll(Empty, FixedEntries(proof, vk, solidity))
    ensures base.names == FixedNames && WellFormed(base)
    ensures ProofName in base.contents && base.contents[ProofName] == FileData(proof)
    ensures VkName in base.contents && base.contents[VkName] == FileData(vk)
    ensures VerifierFolder in base.contents && base.contents[VerifierFolder] == Folder
    ensures SolidityFolder in base.contents && base.contents[SolidityFolder] == Folder
    ensures SolidityName in base.contents && base.contents[SolidityName] == FileData(solidity)
    ensures CairoFolder !in base.contents
    ensures forall k :: 0 <= k < |cairo| ==> cairo[k].0 !in base.contents
  {
    FixedByPuts(proof, vk, solidity);
    FixedPutsListing(proof, vk, solidity);
    FixedNamesDistinct();
    base := FixedPuts(proof, vk, solidity);
    forall k | 0 <= k < |cairo|
      ensures cairo[k].0 !in base.contents
    {
      CairoNameIsNew(cairo[k].0);
    }
  }

  /**
   * Once `verifier/` is present, `zip.file` of a name in the Cairo folder
   * adds the folder `verifier/cairo/` when it is absent and the name is not
   * that folder itself, then sets the name.
   */
  lemma CairoAdd(l: Listing, n: string, data: Bytes)
    requires VerifierFolder in l.contents && InCairoFolder(n)
    ensures Add(l, n, data) ==
      Put(if n != CairoFolder && CairoFolder !in l.contents then Put(l, CairoFolder, Folder) else l, n, FileData(data))
  {
    PlainPieces();
    var f := n[|CairoFolder|..];
    assert n == CairoFolder + f;
    AddTwoDeep(l, VerifierDir, "cairo", f, data);
  }

  /** Setting `n`, after `verifier/cairo/` when that is absent and is not `n`: the listing grows by those names only. */
  lemma PutAfterCairoFolder(l: Listing, n: string, e: Entry)
    requires WellFormed(l)
    ensures var r := Put(if n != CairoFolder && CairoFolder !in l.contents then Put(l, CairoFolder, Folder) else l, n, e);
      WellFormed(r) && (forall m :: m in l.contents ==> m in r.contents) &&
      |l.names| <= |r.names| && r.names[..|l.names|] == l.names &&
      (forall i :: |l.names| <= i < |r.names| ==> r.names[i] == CairoFolder || r.names[i] == n) &&
      (CairoFolder !in l.contents ==> |r.names| > |l.names| && r.names[|l.names|] == CairoFolder)
  {
    if n != CairoFolder && CairoFolder !in l.contents {
      var mid := Put(l, CairoFolder, Folder);
      var r := Put(mid, n, e);
      assert mid.names == l.names + [CairoFolder];
      assert r.names == mid.names + [n] || r.names == mid.names;
      assert r.names[..|l.names|] == l.names;
      assert r.names[|l.names|] == CairoFolder;
      assert forall m :: m in l.contents ==> m in r.contents;
      PutWellFormed(l, CairoFolder, Folder);
      PutWellFormed(mid, n, e);
    } else {
      var r := Put(l, n, e);
      assert r.names == l.names + [n] || r.names == l.names;
      PutWellFormed(l, n, e);
    }
  }

  /** One Cairo name added: the earlier names keep their places, and the new places hold `verifier/cairo/` (first) or the name. */
  lemma CairoStep(l: Listing, n: string, data: Bytes)
    requires WellFormed(l) && VerifierFolder in l.contents && InCairoFolder(n)
    ensures var r := Add(l, n, data);
      WellFormed(r) && VerifierFolder in r.contents &&
      |l.names| <= |r.names| && r.names[..|l.names|] == l.names &&
      (forall i :: |l.names| <= i < |r.names| ==> r.names[i] == CairoFolder || r.names[i] == n) &&
      (CairoFolder !in l.contents ==> |r.names| > |l.names| && r.names[|l.names|] == CairoFolder)
  {
    CairoAdd(l, n, data);
    PutAfterCairoFolder(l, n, FileData(data));
  }

  /**
   * The places from `from` on hold `verifier/cairo/` or a name of `init`;
   * once the new places hold that folder or `last`'s name, every place from
   * `from` on holds the folder or a name of `init + [last]`.
   */
  lemma CairoTailGrows(from: nat, before: seq<string>, after: seq<string>, init: seq<(string, Bytes)>, last: (string, Bytes))
    requires |before| <= |after| && after[..|before|] == before
    requires forall i :: from <= i < |before| ==>
      before[i] == CairoFolder || exists k :: 0 <= k < |init| && init[k].0 == before[i]
    requires forall i :: |before| <= i < |after| ==> after[i] == CairoFolder || after[i] == last.0
    ensures forall i :: from <= i < |after| ==>
      after[i] == CairoFolder || exists k :: 0 <= k < |init + [last]| && (init + [last])[k].0 == after[i]
  {
    var cairo := init + [last];
    forall i | from <= i < |after|
      ensures after[i] == CairoFolder || exists k :: 0 <= k < |cairo| && cairo[k].0 == after[i]
    {
      if i < |before| {
        assert after[i] == before[i];
        if before[i] != CairoFolder {
          var k :| 0 <= k < |init| && init[k].0 == before[i];
          assert cairo[k].0 == after[i];
        }
      } else if after[i] != CairoFolder {
        assert cairo[|init|].0 == after[i];
      }
    }
  }

  /**
   * The facts `CairoAddsUnder` keeps, carried over one more Cairo name: the
   * listing `prev` holds `base`'s names first and then `verifier/cairo/` or
   * names of `init`; after adding `last` the same holds of `init + [last]`.
   */
  lemma CairoAddsOne(base: Listing, prev: Listing, init: seq<(string, Bytes)>, last: (string, Bytes))
    requires InCairoFolder(last.0)
    requires WellFormed(prev) && VerifierFolder in prev.contents
    requires |base.names| <= |prev.names| && prev.names[..|base.names|] == base.names
    requires forall i :: |base.names| <= i < |prev.names| ==>
      prev.names[i] == CairoFolder || exists k :: 0 <= k < |init| && init[k].0 == prev.names[i]
    requires |init| > 0 && CairoFolder !in base.contents ==> |prev.names| > |base.names| && prev.names[|base.names|] == CairoFolder
    requires |init| == 0 ==> prev == base
    ensures var r := Add(prev, last.0, last.1);
      var cairo := init + [last];
      WellFormed(r) && VerifierFolder in r.contents &&
      |base.names| <= |r.names| && r.names[..|base.names|] == base.names &&
      (forall i :: |base.names| <= i < |r.names| ==>
         r.names[i] == CairoFolder || exists k :: 0 <= k < |cairo| && cairo[k].0 == r.names[i]) &&
      (CairoFolder !in base.contents ==> |r.names| > |base.names| && r.names[|base.names|] == CairoFolder)
  {
    var r := Add(prev, last.0, last.1);
    var cairo := init + [last];
    CairoStep(prev, last.0, last.1);
    assert r.names[..|base.names|] == prev.names[..|base.names|];
    CairoTailGrows(|base.names|, prev.names, r.names, init, last);
    if CairoFolder !in base.contents && |init| > 0 {
      assert r.names[|base.names|] == prev.names[|base.names|];
    }
  }

  /**
   * Adding names in the Cairo folder after `verifier/` is present: the
   * earlier entries keep their places, and every later place holds
   * `verifier/cairo/` or one of the added names; `verifier/cairo/` comes
   * first among them when it was absent.
   */
  lemma {:induction false} CairoAddsUnder(base: Listing, cairo: seq<(string, Bytes)>)
    requires WellFormed(base) && VerifierFolder in base.contents
    requires forall k :: 0 <= k < |cairo| ==> InCairoFolder(cairo[k].0)
    ensures var r := AddAll(base, cairo);
      WellFormed(r) && VerifierFolder in r.contents &&
      |base.names| <= |r.names| && r.names[..|base.names|] == base.names &&
      (forall i :: |base.names| <= i < |r.names| ==>
         r.names[i] == CairoFolder || exists k :: 0 <= k < |cairo| && cairo[k].0 == r.names[i]) &&
      (|cairo| > 0 && CairoFolder !in base.contents ==> |r.names| > |base.names| && r.names[|base.names|] == CairoFolder)
    decreases |cairo|
  {
    if |cairo| > 0 {
      var init := cairo[..|cairo| - 1];
      var last := cairo[|cairo| - 1];
      assert cairo == init + [last];
      CairoAddsUnder(base, init);
      CairoAddsOne(base, AddAll(base, init), init, last);
    }
  }

  /**
   * Adding the Cairo entries after the fixed names: those keep their places
   * and what they hold, and every later place holds `verifier/cairo/`, first,
   * or one of the Cairo names, all of which are present.
   */
  lemma LayoutAfterFixed(base: Listing, cairo: seq<(string, Bytes)>)
    requires WellFormed(base) && base.names == FixedNames
    requires CairoFolder !in base.contents
    requires forall k :: 0 <= k < |cairo| ==> InCairoFolder(cairo[k].0) && cairo[k].0 !in base.contents
    ensures var r := AddAll(base, cairo);
      WellFormed(r) && |r.names| >= 5 && r.names[..5] == FixedNames &&
      (forall n :: n in FixedNames ==> n in r.contents && r.contents[n] == base.contents[n]) &&
      (forall i :: 5 <= i < |r.names| ==> r.names[i] == CairoFolder || exists k :: 0 <= k < |cairo| && cairo[k].0 == r.names[i]) &&
      (|cairo| > 0 ==> |r.names| > 5 && r.names[5] == CairoFolder) &&
      (forall k :: 0 <= k < |cairo| ==> cairo[k].0 in r.contents)
  {
    var r := AddAll(base, cairo);
    assert VerifierFolder in base.contents by {
      assert base.names[2] == VerifierFolder;
    }
    CairoAddsUnder(base, cairo);
    AddAllKeys(base, cairo);
    assert forall n :: n in FixedNames ==> n in r.contents && r.contents[n] == base.contents[n] by {
      AddAllKeeps(base, cairo);
    }
  }
}
