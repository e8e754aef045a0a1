/**
 * `extractZipStripRoot`: unpack an uploaded ZIP archive into a target
 * directory. When every file entry sits under one top-level folder, that
 * folder's name and slash are removed from every entry name first. Each
 * entry is then joined onto the target and normalized, and it is refused
 * unless the normalized path, as a STRING, starts with the target path.
 * A directory entry becomes `mkdirp(path)`; a file entry becomes
 * `mkdirp(dirname(path))` followed by `writeFile(path, bytes)`. A failure
 * on one entry is logged and the next entry is taken.
 */
module ZipExtract {
  import opened Wrappers
  import opened JsStrings
  import opened PosixPath
  import opened Files

  /** An entry of the loaded archive under its name; `data` is None when inflating it fails. */
  datatype Entry = Entry(name: string, dir: bool, data: Option<Bytes>)

  /** What loading the archive yields: its entries in key order, or the reason the buffer is refused. */
  datatype Archive = Unreadable(reason: string) | Loaded(entries: seq<Entry>)

  function Names(entries: seq<Entry>): (r: seq<string>)
    ensures |r| == |entries|
    ensures forall i :: 0 <= i < |r| ==> r[i] == entries[i].name
  {
    if |entries| == 0 then [] else [entries[0].name] + Names(entries[1..])
  }

  /** The names that are not directory names (do not end with a slash), in order. */
  function FilePaths(names: seq<string>): (r: seq<string>)
    ensures forall n :: n in r <==> n in names && !EndsWith(n, "/")
  {
    if |names| == 0 then []
    else
      assert forall n :: n in names <==> n == names[0] || n in names[1..];
      (if EndsWith(names[0], "/") then [] else [names[0]]) + FilePaths(names[1..])
  }

  /** `seg` is a single top-level folder holding every one of the (non-empty list of) file paths. */
  predicate IsRootFolder(paths: seq<string>, seg: string) {
    '/' !in seg && |paths| > 0 && forall i :: 0 <= i < |paths| ==> StartsWith(paths[i], seg + "/")
  }

  /**
   * The prefix stripped from entry names: the first file path's top-level
   * folder and a slash, if every file path starts with it; otherwise "".
   */
  function RootPrefix(names: seq<string>): (r: string)
    ensures r == "" || (r[|r| - 1] == '/' && IsRootFolder(FilePaths(names), r[..|r| - 1]))
  {
    var paths := FilePaths(names);
    if |paths| == 0 then ""
    else
      var parts := Split(paths[0]);
      if |parts| <= 1 then ""
      else
        var candidate := parts[0] + "/";
        if forall i :: 0 <= i < |paths| ==> StartsWith(paths[i], candidate) then
          assert candidate[..|candidate| - 1] == parts[0];
          candidate
        else ""
  }

  /** A top-level folder holding every file is exactly what gets stripped, so the prefix is "" only when there is none. */
  lemma RootFolderIsStripped(names: seq<string>, seg: string)
    requires IsRootFolder(FilePaths(names), seg)
    ensures RootPrefix(names) == seg + "/"
  {
    var p0 := FilePaths(names)[0];
    var rest := p0[|seg| + 1..];
    assert p0 == seg + "/" + rest;
    SplitAppend(seg, rest);
    SplitNoSlash(seg);
  }

  /** `filename.replace(rootPrefix, '')` when a prefix was found, the name itself otherwise. */
  function StripRoot(name: string, rootPrefix: string): string {
    if rootPrefix != "" then RemoveFirst(name, rootPrefix) else name
  }

  /** Every file path loses exactly its leading root folder. */
  lemma FilePathLosesRoot(names: seq<string>, f: string)
    requires f in FilePaths(names)
    ensures var r := RootPrefix(names);
      StartsWith(f, r) && StripRoot(f, r) == f[|r|..]
  {
    var r := RootPrefix(names);
    if r != "" {
      assert r == r[..|r| - 1] + "/";
      RemoveFirstOfPrefix(f, r);
    }
  }

  /**
   * The replacement removes the FIRST occurrence anywhere in the name: a
   * directory entry that merely contains the root folder's name further in
   * loses that inner occurrence instead.
   */
  lemma InnerOccurrenceIsRemoved()
    ensures RootPrefix(["proj/main.nr", "docs/proj/"]) == "proj/"
    ensures StripRoot("docs/proj/", "proj/") == "docs/"
  {
    OnlyFileUnderProj();
    InnerOccurrenceAtFive();
  }

  lemma OnlyFileUnderProj()
    ensures RootPrefix(["proj/main.nr", "docs/proj/"]) == "proj/"
  {
    var names := ["proj/main.nr", "docs/proj/"];
    assert "docs/proj/"[9..] == "/";
    assert "proj/main.nr"[11..] == "r";
    assert FilePaths(names[1..]) == [];
    assert FilePaths(names) == ["proj/main.nr"];
    assert "proj/main.nr"[..5] == "proj/";
    assert IsRootFolder(FilePaths(names), "proj");
    RootFolderIsStripped(names, "proj");
  }

  lemma InnerOccurrenceAtFive()
    ensures IndexOf("docs/proj/", "proj/") == Some(5)
  {
    var s := "docs/proj/";
    assert s[5..10] == "proj/";
    assert IndexOfFrom(s, "proj/", 5) == Some(5);
    assert s[4] == '/' && s[4..9][0] == s[4];
    assert IndexOfFrom(s, "proj/", 4) == Some(5);
    assert s[3] == 's' && s[3..8][0] == s[3];
    assert IndexOfFrom(s, "proj/", 3) == Some(5);
    assert s[2] == 'c' && s[2..7][0] == s[2];
    assert IndexOfFrom(s, "proj/", 2) == Some(5);
    assert s[1] == 'o' && s[1..6][0] == s[1];
    assert IndexOfFrom(s, "proj/", 1) == Some(5);
    assert s[0] == 'd' && s[0..5][0] == s[0];
  }

  /** Stripping a prefix that ends in a slash never makes a name end in a slash. */
  lemma StripKeepsFileSuffix(name: string, rootPrefix: string)
    requires rootPrefix == "" || EndsWith(rootPrefix, "/")
    requires !EndsWith(name, "/")
    ensures !EndsWith(StripRoot(name, rootPrefix), "/")
  {
    if rootPrefix != "" && IndexOf(name, rootPrefix).Some? {
      var i := IndexOf(name, rootPrefix).value;
      var s := StripRoot(name, rootPrefix);
      if i + |rootPrefix| < |name| && |s| >= 1 {
        assert s[|s| - 1..] == name[|name| - 1..];
      }
    }
  }

  /** What the loop body decides for one entry. */
  datatype Plan =
    | Skip                            // nothing is left of the name after stripping
    | Unsafe(normalized: string)      // the destination does not start with the target path
    | MakeDir(path: Path)
    | MakeFile(parent: Path, path: Path, trailingSlash: bool, data: Option<Bytes>)

  function PlanEntry(e: Entry, rootPrefix: string, target: string): Plan {
    var stripped := StripRoot(e.name, rootPrefix);
    if stripped == "" then Skip
    else
      var normalized := Normalize(JoinPaths([target, stripped]));
      if !StartsWith(normalized, target) then Unsafe(normalized)
      else if e.dir then MakeDir(Segments(normalized))
      else MakeFile(Segments(Dirname(normalized)), Segments(normalized), EndsWith(normalized, "/"), e.data)
  }

  /**
   * The file-system effect of one plan. A failing step abandons the rest of
   * the entry but keeps what earlier steps did: the directories `mkdirp`
   * created stay when inflating or writing the file fails.
   */
  function ApplyPlan(m: map<Path, Node>, plan: Plan): map<Path, Node> {
    match plan
    case Skip => m
    case Unsafe(_) => m
    case MakeDir(p) =>
      (match MakeDirsIn(m, p) case Ok(m1) => m1 case Err(_) => m)
    case MakeFile(parent, p, trailingSlash, data) =>
      match MakeDirsIn(m, parent)
      case Err(_) => m
      case Ok(m1) =>
        if data.None? || trailingSlash then m1
        else match WriteFileIn(m1, p, data.value) case Ok(m2) => m2 case Err(_) => m1
  }

  /** The file system after extracting `entries` in order. */
  function ExtractAll(m: map<Path, Node>, entries: seq<Entry>, rootPrefix: string, target: string): map<Path, Node>
    decreases |entries|
  {
    if |entries| == 0 then m
    else ApplyPlan(ExtractAll(m, entries[..|entries| - 1], rootPrefix, target),
                   PlanEntry(entries[|entries| - 1], rootPrefix, target))
  }

  lemma ExtractAllStep(m: map<Path, Node>, entries: seq<Entry>, i: nat, rootPrefix: string, target: string)
    requires i < |entries|
    ensures ExtractAll(m, entries[..i + 1], rootPrefix, target) ==
            ApplyPlan(ExtractAll(m, entries[..i], rootPrefix, target), PlanEntry(entries[i], rootPrefix, target))
  {
    assert entries[..i + 1][..i] == entries[..i];
  }

  /** The paths a plan may add. */
  predicate Touches(plan: Plan, q: Path) {
    match plan
    case MakeDir(p) => IsPrefix(q, p)
    case MakeFile(parent, p, _, _) => IsPrefix(q, parent) || q == p
    case _ => false
  }

  /** An accepted plan names a path of names admitted by the guard, and a file's parent is that path's parent. */
  predicate WellPlaced(plan: Plan, ts: seq<string>)
    requires |ts| >= 1
  {
    match plan
    case MakeDir(p) => AllNames(p) && PrefixAdmits(p, ts)
    case MakeFile(parent, p, _, _) => AllNames(p) && PrefixAdmits(p, ts) && parent == Parent(p)
    case _ => true
  }

  // ---------------------------------------------------------------------------
  // One entry
  // ---------------------------------------------------------------------------

  lemma ApplyPlanKeepsTree(m: map<Path, Node>, plan: Plan)
    requires TreeClosed(m)
    ensures TreeClosed(ApplyPlan(m, plan))
  {
    match plan
    case MakeDir(p) =>
      if MakeDirsIn(m, p).Ok? { MakeDirsKeepsTree(m, p); }
    case MakeFile(parent, p, trailingSlash, data) =>
      if MakeDirsIn(m, parent).Ok? {
        MakeDirsKeepsTree(m, parent);
        var m1 := MakeDirsIn(m, parent).value;
        if data.Some? && WriteFileIn(m1, p, data.value).Ok? {
          WriteFileKeepsTree(m1, p, data.value);
        }
      }
    case _ =>
  }

  /**
   * One entry never deletes anything, never replaces a directory, replaces
   * at most the file at its own path, and adds only its own path and
   * directories on the way to it.
   */
  lemma ApplyPlanFrame(m: map<Path, Node>, plan: Plan)
    ensures var r := ApplyPlan(m, plan);
      (forall q :: q in m ==> q in r) &&
      (forall q :: q in m && m[q].Dir? ==> r[q] == m[q]) &&
      (forall q :: q in m && !(plan.MakeFile? && q == plan.path) ==> r[q] == m[q]) &&
      (forall q :: q in r && q !in m ==> 1 <= |q| && Touches(plan, q))
  {
    match plan
    case MakeFile(parent, p, trailingSlash, data) =>
      if MakeDirsIn(m, parent).Ok? {
        var m1 := MakeDirsIn(m, parent).value;
        assert forall q :: q in m1 && q !in m ==> IsPrefix(q, parent);
      }
    case _ =>
  }

  /** `path.join(target, stripped)` for two non-empty arguments normalizes their slash-joined text. */
  lemma JoinTwo(t: string, s: string)
    requires t != "" && s != ""
    ensures JoinPaths([t, s]) == Normalize(t + "/" + s)
  {
    assert [t, s][1..] == [s];
    assert NonEmpty([s]) == [s] + NonEmpty([]);
    assert NonEmpty([t, s]) == [t, s];
    assert Join([t, s]) == t + "/" + s;
  }

  /** Where an entry's name leads once joined onto the target: the normalized text, in terms of its segments. */
  lemma NormalizedDestination(ts: seq<string>, s: string)
    requires AllNames(ts) && s != ""
    ensures var segs := Segments(Render(ts) + "/" + s);
      AllNames(segs) &&
      Normalize(JoinPaths([Render(ts), s])) ==
        (if |segs| == 0 then "/" else Render(segs) + (if EndsWith(s, "/") then "/" else ""))
  {
    var joined := Render(ts) + "/" + s;
    JoinTwo(Render(ts), s);
    assert IsAbsolute(joined);
    NormalizeIdempotent(joined);
    NormalizeAbsolute(joined);
    assert joined[|joined| - 1] == s[|s| - 1];
    assert EndsWith(s, "/") <==> s[|s| - 1] == '/' by {
      assert s[|s| - 1..] == [s[|s| - 1]];
    }
  }

  /**
   * The guard, on segments: an entry is refused exactly when the segments of
   * `target/stripped` are not admitted by the string-prefix test
   * (`PrefixAdmits`); an accepted entry is created at those segments, and a
   * file entry's parent directory is their parent.
   */
  lemma EntryPlacement(e: Entry, rootPrefix: string, ts: seq<string>)
    requires AllNames(ts) && |ts| >= 1
    ensures var s := StripRoot(e.name, rootPrefix);
      var plan := PlanEntry(e, rootPrefix, Render(ts));
      (plan.Skip? <==> s == "") &&
      (s != "" ==>
        var segs := Segments(Render(ts) + "/" + s);
        AllNames(segs) &&
        (plan.Unsafe? <==> !PrefixAdmits(segs, ts)) &&
        (plan.MakeDir? <==> e.dir && PrefixAdmits(segs, ts)) &&
        ((plan.MakeDir? || plan.MakeFile?) ==> plan.path == segs) &&
        (plan.MakeFile? ==> plan.parent == Parent(segs) && (plan.trailingSlash <==> EndsWith(s, "/")) && plan.data == e.data))
  {
    var s := StripRoot(e.name, rootPrefix);
    if s != "" {
      Destination(ts, s);
    }
  }

  /** Where a stripped name lands under the target, and whether the prefix guard lets it through. */
  lemma Destination(ts: seq<string>, s: string)
    requires AllNames(ts) && |ts| >= 1 && s != ""
    ensures var segs := Segments(Render(ts) + "/" + s);
      var n := Normalize(JoinPaths([Render(ts), s]));
      AllNames(segs) &&
      (StartsWith(n, Render(ts)) <==> PrefixAdmits(segs, ts)) &&
      (PrefixAdmits(segs, ts) ==>
        Segments(n) == segs && Segments(Dirname(n)) == Parent(segs) && (EndsWith(n, "/") <==> EndsWith(s, "/")))
  {
    var segs := Segments(Render(ts) + "/" + s);
    var trailing := EndsWith(s, "/");
    NormalizedDestination(ts, s);
    var n := Normalize(JoinPaths([Render(ts), s]));
    PrefixGuardWithTrailing(segs, ts, trailing);
    if |segs| >= 1 {
      RenderRoundTrip(segs);
      if trailing {
        RenderTrailingSegments(segs);
        assert n[|n| - 1..] == "/";
      } else {
        JoinOfNamesEndsInName(segs);
        assert n[|n| - 1..] == [n[|n| - 1]];
      }
      DirnameOfNormalized(segs, trailing);
    }
  }

  /** A name without `..` segments is always accepted, and lands at the target followed by its own names. */
  lemma EntryWithoutParentRefsIsPlaced(e: Entry, rootPrefix: string, ts: seq<string>)
    requires AllNames(ts) && |ts| >= 1
    requires StripRoot(e.name, rootPrefix) != ""
    requires NoParentRefs(Split(StripRoot(e.name, rootPrefix)))
    ensures var plan := PlanEntry(e, rootPrefix, Render(ts));
      (plan.MakeDir? || plan.MakeFile?) &&
      plan.path == ts + Clean(Split(StripRoot(e.name, rootPrefix)))
  {
    var s := StripRoot(e.name, rootPrefix);
    var t := Render(ts);
    var ns := Segments(t + "/" + s);
    assert ns == ts + Clean(Split(s)) by {
      SplitAppend(t, s);
      RenderRoundTrip(ts);
      ResolveAppend([], Split(t), Split(s), false);
      ResolveWithoutParentRefs(ts, Split(s), false);
    }
    EntryPlacement(e, rootPrefix, ts);
    assert ns[..|ts|] == ts;
    assert ns[..|ts|][..|ts| - 1] == ns[..|ts| - 1];
  }

  /**
   * Climbing out of the target with `../sib/f`: the entry is accepted exactly
   * when the sibling's name starts with the target's own last name, and then
   * it is written OUTSIDE the target unless the sibling is the target itself.
   */
  lemma ParentHopEntry(ts: seq<string>, sib: string, f: string, data: Option<Bytes>)
    requires AllNames(ts) && |ts| >= 1 && IsName(sib) && IsName(f)
    ensures var plan := PlanEntry(Entry("../" + sib + "/" + f, false, data), "", Render(ts));
      var k := |ts| - 1;
      (plan.Unsafe? <==> !StartsWith(sib, ts[k])) &&
      (!plan.Unsafe? ==> plan.MakeFile? && plan.path == ts[..k] + [sib, f] &&
                         (Within(plan.path, ts) <==> sib == ts[k]))
  {
    var k := |ts| - 1;
    var s := "../" + sib + "/" + f;
    var t := Render(ts);
    var e := Entry(s, false, data);
    var ns := ts[..k] + [sib, f];
    assert ns[..k] == ts[..k] && ns[k] == sib;
    ParentHopSegments(ts, s, sib, f);
    HopWithin(ts, sib, f);
    EntryPlacement(e, "", ts);
  }

  /** Replacing the target's last name by a sibling and a file lands inside the target exactly when the sibling is that name. */
  lemma HopWithin(ts: seq<string>, sib: string, f: string)
    requires |ts| >= 1
    ensures Within(ts[..|ts| - 1] + [sib, f], ts) <==> sib == ts[|ts| - 1]
  {
    var k := |ts| - 1;
    var ns := ts[..k] + [sib, f];
    assert ns[k] == sib;
    if Within(ns, ts) {
      assert ns[..|ts|][k] == ts[k];
    }
    if sib == ts[k] {
      assert ns[..|ts|] == ts;
    }
  }

  lemma ParentHopSegments(ts: seq<string>, s: string, sib: string, f: string)
    requires AllNames(ts) && |ts| >= 1 && IsName(sib) && IsName(f)
    requires s == "../" + sib + "/" + f
    ensures Segments(Render(ts) + "/" + s) == ts[..|ts| - 1] + [sib, f]
  {
    var k := |ts| - 1;
    var t := Render(ts);
    SplitOfHop(s, sib, f);
    SplitAppend(t, s);
    RenderRoundTrip(ts);
    ResolveAppend([], Split(t), Split(s), false);
    ResolveHop(ts, sib, f);
  }

  /** Resolving `..` then two names drops the last name and appends the two. */
  lemma ResolveHop(ts: seq<string>, sib: string, f: string)
    requires AllNames(ts) && |ts| >= 1 && IsName(sib) && IsName(f)
    ensures Resolve(ts, ["..", sib, f], false) == ts[..|ts| - 1] + [sib, f]
  {
    var k := |ts| - 1;
    var hop: seq<string> := ["..", sib, f];
    assert hop[0] == ".." && hop[1..] == [sib, f];
    assert ts[k] != "..";
    assert Step(ts, "..", false) == ts[..k];
    ResolveTwoNames(ts[..k], sib, f);
  }

  lemma SplitOfHop(s: string, sib: string, f: string)
    requires IsName(sib) && IsName(f)
    requires s == "../" + sib + "/" + f
    ensures Split(s) == ["..", sib, f]
  {
    var tail := sib + "/" + f;
    SplitAppend(sib, f);
    SplitNoSlash(sib);
    SplitNoSlash(f);
    assert Split(tail) == [sib, f];
    var up := "..";
    assert '/' !in up by { assert up[0] == '.' && up[1] == '.'; }
    SplitNoSlash(up);
    assert s == up + "/" + tail;
    SplitAppend(up, tail);
  }

  /** A short prefix of an admitted path is an ancestor of the target, hence already present. */
  lemma ShortPrefixPresent(m: map<Path, Node>, ts: seq<string>, p: Path, q: Path)
    requires TreeClosed(m) && ts in m && |ts| >= 1
    requires IsPrefix(q, p) && 1 <= |q| < |ts| && |p| >= |ts| && p[..|ts| - 1] == ts[..|ts| - 1]
    ensures q in m
  {
    AncestorsAreDirs(m, ts);
    assert q == ts[..|q|];
  }

  /** A path already present is never a descendant of a file entry of a closed tree. */
  lemma BlockedPathAbsent(m: map<Path, Node>, p: Path)
    requires TreeClosed(m) && |p| >= 1 && BlockedBy(m, Parent(p))
    ensures p !in m
  {
    if p in m {
      AncestorsAreDirs(m, p);
      assert forall k :: 1 <= k <= |Parent(p)| ==> Parent(p)[..k] == p[..k];
    }
  }

  /**
   * An accepted file entry (its name not ending in a slash, its bytes
   * inflated) ends up as a file holding exactly those bytes at its path if and
   * only if no ancestor of that path is a file and the path is not a
   * directory; when an ancestor is a file, nothing at all changes.
   */
  lemma FileEntryLands(m: map<Path, Node>, e: Entry, rootPrefix: string, ts: seq<string>)
    requires TreeClosed(m) && AllNames(ts) && |ts| >= 1
    requires !e.dir && e.data.Some? && !EndsWith(e.name, "/")
    requires rootPrefix == "" || EndsWith(rootPrefix, "/")
    requires PlanEntry(e, rootPrefix, Render(ts)).MakeFile?
    ensures var plan := PlanEntry(e, rootPrefix, Render(ts));
      var p := plan.path;
      var r := ApplyPlan(m, plan);
      |p| >= |ts| &&
      (BlockedBy(m, Parent(p)) ==> r == m) &&
      ((p in r && r[p] == File(e.data.value)) <==> !BlockedBy(m, Parent(p)) && !(p in m && m[p].Dir?))
  {
    EntryPlacement(e, rootPrefix, ts);
    StripKeepsFileSuffix(e.name, rootPrefix);
    var plan := PlanEntry(e, rootPrefix, Render(ts));
    FilePlanLands(m, plan);
  }

  lemma FilePlanLands(m: map<Path, Node>, plan: Plan)
    requires TreeClosed(m)
    requires plan.MakeFile? && |plan.path| >= 1 && plan.parent == Parent(plan.path)
    requires !plan.trailingSlash && plan.data.Some?
    ensures var p := plan.path;
      var r := ApplyPlan(m, plan);
      (BlockedBy(m, Parent(p)) ==> r == m) &&
      ((p in r && r[p] == File(plan.data.value)) <==> !BlockedBy(m, Parent(p)) && !(p in m && m[p].Dir?))
  {
    var p := plan.path;
    var up := Parent(p);
    if BlockedBy(m, up) {
      BlockedPathAbsent(m, p);
    } else {
      var m1 := MakeDirsIn(m, up).value;
      assert p in m1 <==> p in m;
      assert p in m ==> m1[p] == m[p];
      if |p| >= 2 {
        assert up[..|up|] == up;
      }
    }
  }

  // ---------------------------------------------------------------------------
  // The whole archive
  // ---------------------------------------------------------------------------

  lemma {:induction false} ExtractAllAppend(m: map<Path, Node>, xs: seq<Entry>, ys: seq<Entry>, rootPrefix: string, target: string)
    ensures ExtractAll(m, xs + ys, rootPrefix, target) ==
            ExtractAll(ExtractAll(m, xs, rootPrefix, target), ys, rootPrefix, target)
    decreases |ys|
  {
    if |ys| == 0 {
      assert xs + ys == xs;
    } else {
      var init := ys[..|ys| - 1];
      assert (xs + ys)[..|xs + ys| - 1] == xs + init;
      assert (xs + ys)[|xs + ys| - 1] == ys[|ys| - 1];
      ExtractAllAppend(m, xs, init, rootPrefix, target);
    }
  }

  /** A skipped or refused entry can be dropped from the archive without changing the outcome. */
  lemma RefusedEntryIsInert(m: map<Path, Node>, xs: seq<Entry>, e: Entry, ys: seq<Entry>, rootPrefix: string, target: string)
    requires PlanEntry(e, rootPrefix, target).Skip? || PlanEntry(e, rootPrefix, target).Unsafe?
    ensures ExtractAll(m, xs + [e] + ys, rootPrefix, target) == ExtractAll(m, xs + ys, rootPrefix, target)
  {
    ExtractAllAppend(m, xs + [e], ys, rootPrefix, target);
    ExtractAllAppend(m, xs, ys, rootPrefix, target);
    assert (xs + [e])[..|xs + [e]| - 1] == xs;
  }

  /**
   * One accepted or refused entry, with the target directory present: the
   * tree stays closed, the target stays a directory, and every path the entry
   * adds or changes is one the string-prefix guard admits.
   */
  lemma StepStaysInReach(m: map<Path, Node>, e: Entry, rootPrefix: string, ts: seq<string>)
    requires TreeClosed(m) && AllNames(ts) && |ts| >= 1 && ts in m && m[ts].Dir?
    ensures var r := ApplyPlan(m, PlanEntry(e, rootPrefix, Render(ts)));
      TreeClosed(r) && ts in r && r[ts].Dir? &&
      (forall q :: q in m ==> q in r) &&
      (forall q :: q in r && q !in m ==> PrefixAdmits(q, ts)) &&
      (forall q :: q in m && !PrefixAdmits(q, ts) ==> r[q] == m[q])
  {
    EntryIsWellPlaced(e, rootPrefix, ts);
    PlanStaysInReach(m, PlanEntry(e, rootPrefix, Render(ts)), ts);
  }

  lemma EntryIsWellPlaced(e: Entry, rootPrefix: string, ts: seq<string>)
    requires AllNames(ts) && |ts| >= 1
    ensures WellPlaced(PlanEntry(e, rootPrefix, Render(ts)), ts)
  {
    EntryPlacement(e, rootPrefix, ts);
  }

  lemma PlanStaysInReach(m: map<Path, Node>, plan: Plan, ts: seq<string>)
    requires TreeClosed(m) && AllNames(ts) && |ts| >= 1 && ts in m && m[ts].Dir?
    requires WellPlaced(plan, ts)
    ensures var r := ApplyPlan(m, plan);
      TreeClosed(r) && ts in r && r[ts].Dir? &&
      (forall q :: q in m ==> q in r) &&
      (forall q :: q in r && q !in m ==> PrefixAdmits(q, ts)) &&
      (forall q :: q in m && !PrefixAdmits(q, ts) ==> r[q] == m[q])
  {
    var r := ApplyPlan(m, plan);
    ApplyPlanKeepsTree(m, plan);
    ApplyPlanFrame(m, plan);
    AncestorsAreDirs(m, ts);
    if plan.MakeDir? || plan.MakeFile? {
      var p := plan.path;
      assert PrefixAdmits(p, ts);
      forall q | q in r && q !in m
        ensures PrefixAdmits(q, ts)
      {
        assert IsPrefix(q, p);
        if |q| < |ts| {
          ShortPrefixPresent(m, ts, p, q);
        }
        assert q[..|ts| - 1] == p[..|ts| - 1];
        assert q[|ts| - 1] == p[|ts| - 1];
      }
    }
  }

  /**
   * Extracting a whole archive into an existing target directory keeps the
   * tree closed, deletes nothing, and creates or changes only paths the
   * string-prefix guard admits: the target, what is inside it, and siblings
   * whose names extend the target's name.
   */
  lemma {:induction false} ExtractionStaysInReach(m: map<Path, Node>, entries: seq<Entry>, rootPrefix: string, ts: seq<string>)
    requires TreeClosed(m) && AllNames(ts) && |ts| >= 1 && ts in m && m[ts].Dir?
    ensures var r := ExtractAll(m, entries, rootPrefix, Render(ts));
      TreeClosed(r) && ts in r && r[ts].Dir? &&
      (forall q :: q in m ==> q in r) &&
      (forall q :: q in r && q !in m ==> PrefixAdmits(q, ts)) &&
      (forall q :: q in m && !PrefixAdmits(q, ts) ==> r[q] == m[q])
    decreases |entries|
  {
    if |entries| > 0 {
      var init := entries[..|entries| - 1];
      ExtractionStaysInReach(m, init, rootPrefix, ts);
      StepStaysInReach(ExtractAll(m, init, rootPrefix, Render(ts)), entries[|entries| - 1], rootPrefix, ts);
    }
  }

  // ---------------------------------------------------------------------------
  // The procedure
  // ---------------------------------------------------------------------------

  /** The body of the extraction loop for one entry; every failure ends the entry. */
  method ExtractEntry(fs: FileSystem, e: Entry, rootPrefix: string, target: string)
    requires fs.Valid()
    modifies fs
    ensures fs.Valid()
    ensures fs.nodes == ApplyPlan(old(fs.nodes), PlanEntry(e, rootPrefix, target))
  {
    var stripped := if rootPrefix != "" then RemoveFirst(e.name, rootPrefix) else e.name;
    if stripped == "" {
      return;
    }
    var normalizedPath := Normalize(JoinPaths([target, stripped]));
    if !StartsWith(normalizedPath, target) {
      return;  // "Unsafe file path detected", logged
    }
    if e.dir {
      var err := fs.MakeDirs(Segments(normalizedPath));
    } else {
      WriteEntryFile(fs, normalizedPath, e.data);
    }
  }

  /** A file entry that passed the guard: `mkdirp` of its directory, then the write, unless either fails. */
  method WriteEntryFile(fs: FileSystem, normalizedPath: string, data: Option<Bytes>)
    requires fs.Valid()
    modifies fs
    ensures fs.Valid()
    ensures fs.nodes == ApplyPlan(old(fs.nodes), MakeFile(Segments(Dirname(normalizedPath)), Segments(normalizedPath),
                                                          EndsWith(normalizedPath, "/"), data))
  {
    var err := fs.MakeDirs(Segments(Dirname(normalizedPath)));
    if err.Some? || data.None? || EndsWith(normalizedPath, "/") {
      return;
    }
    err := fs.WriteFile(Segments(normalizedPath), data.value);
  }

  /**
   * `extractZipStripRoot(zipBuffer, targetPath)`: rejects with the loader's
   * reason when the archive cannot be read, and otherwise extracts every
   * entry in order.
   */
  method ExtractZipStripRoot(fs: FileSystem, archive: Archive, target: string) returns (err: Option<string>)
    requires fs.Valid()
    modifies fs
    ensures fs.Valid()
    ensures archive.Unreadable? ==> err == Some(archive.reason) && fs.nodes == old(fs.nodes)
    ensures archive.Loaded? ==>
      (err.None? && fs.nodes == ExtractAll(old(fs.nodes), archive.entries, RootPrefix(Names(archive.entries)), target))
  {
    if archive.Unreadable? {
      return Some(archive.reason);
    }
    var entries := archive.entries;
    var rootPrefix := RootPrefix(Names(entries));
    for i := 0 to |entries|
      invariant fs.Valid()
      invariant fs.nodes == ExtractAll(old(fs.nodes), entries[..i], rootPrefix, target)
    {
      ExtractEntry(fs, entries[i], rootPrefix, target);
      ExtractAllStep(old(fs.nodes), entries, i, rootPrefix, target);
    }
    assert entries[..|entries|] == entries;
    err := None;
  }
}
