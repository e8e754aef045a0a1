/**
 * Node's POSIX `path` functions as the server uses them: `normalize`,
 * `join`, `dirname` and `basename`.
 *
 * `normalize` splits a path at `/`, drops empty and `.` segments, lets `..`
 * cancel the segment before it (above the root of an absolute path it is
 * dropped; at the front of a relative path it is kept), and keeps one leading
 * slash for an absolute path and one trailing slash if the input had one.
 */
module PosixPath {
  import opened Wrappers
  import opened JsStrings

  predicate IsAbsolute(p: string) {
    |p| > 0 && p[0] == '/'
  }

  /** A segment that survives normalization as a directory or file name. */
  predicate IsName(seg: string) {
    seg != "" && seg != "." && seg != ".." && '/' !in seg
  }

  predicate AllNames(segs: seq<string>) {
    forall i :: 0 <= i < |segs| ==> IsName(segs[i])
  }

  /** No segment climbs to the parent directory. */
  predicate NoParentRefs(segs: seq<string>) {
    forall i :: 0 <= i < |segs| ==> segs[i] != ".."
  }

  /** One step of normalization: apply segment `seg` to the stack of segments kept so far. */
  function Step(stack: seq<string>, seg: string, allowAboveRoot: bool): seq<string> {
    if seg == "" || seg == "." then stack
    else if seg == ".." then
      if |stack| > 0 && stack[|stack| - 1] != ".." then stack[..|stack| - 1]
      else if allowAboveRoot then stack + [".."]
      else stack
    else stack + [seg]
  }

  /** The stack after applying every segment of `segs`, left to right. */
  function Resolve(stack: seq<string>, segs: seq<string>, allowAboveRoot: bool): seq<string>
    decreases |segs|
  {
    if |segs| == 0 then stack else Resolve(Step(stack, segs[0], allowAboveRoot), segs[1..], allowAboveRoot)
  }

  /** Resolving two plain names appends them. */
  lemma ResolveTwoNames(ds: seq<string>, a: string, b: string)
    requires IsName(a) && IsName(b)
    ensures Resolve(ds, [a, b], false) == ds + [a, b]
  {
    assert Step(ds, a, false) == ds + [a];
    assert Step(ds + [a], b, false) == ds + [a] + [b] == ds + [a, b];
    assert [a, b][1..] == [b];
    assert [b][1..] == [];
    assert Resolve(ds + [a], [b], false) == Resolve(ds + [a, b], [], false);
  }

  /** The segments `normalize` keeps of `p`. */
  function Segments(p: string): seq<string> {
    Resolve([], Split(p), !IsAbsolute(p))
  }

  /** `path.normalize(p)`. */
  function Normalize(p: string): string {
    if |p| == 0 then "."
    else
      var segs := Segments(p);
      var trailing := p[|p| - 1] == '/';
      if |segs| == 0 then
        (if IsAbsolute(p) then "/" else if trailing then "./" else ".")
      else
        (if IsAbsolute(p) then "/" else "") + Join(segs) + (if trailing then "/" else "")
  }

  /** The absolute path whose segments are `segs`, without a trailing slash. */
  function Render(segs: seq<string>): string {
    "/" + Join(segs)
  }

  /** The arguments of `path.join` that are not empty. */
  function NonEmpty(parts: seq<string>): (r: seq<string>)
    ensures forall i :: 0 <= i < |r| ==> r[i] != ""
  {
    if |parts| == 0 then []
    else if parts[0] == "" then NonEmpty(parts[1..])
    else [parts[0]] + NonEmpty(parts[1..])
  }

  /** `path.join(...parts)`: the non-empty parts joined by `/` and normalized, or `.` if there are none. */
  function JoinPaths(parts: seq<string>): string {
    var ne := NonEmpty(parts);
    if |ne| == 0 then "." else Normalize(Join(ne))
  }

  /** Index one past the last character of `p` that is not a slash, or 0. */
  function EndOfName(p: string): (e: nat)
    ensures e <= |p|
    ensures forall i :: e <= i < |p| ==> p[i] == '/'
    ensures e > 0 ==> p[e - 1] != '/'
  {
    if |p| == 0 || p[|p| - 1] != '/' then |p| else EndOfName(p[..|p| - 1])
  }

  /** Index one past the last slash in `p[..e]`, or 0 if there is none. */
  function StartOfName(p: string, e: nat): (s: nat)
    requires e <= |p|
    ensures s <= e
    ensures forall i :: s <= i < e ==> p[i] != '/'
    ensures s > 0 ==> p[s - 1] == '/'
  {
    if e == 0 || p[e - 1] == '/' then e else StartOfName(p, e - 1)
  }

  /** `path.basename(p)`: the last name in `p`, trailing slashes ignored. */
  function Basename(p: string): (r: string)
    ensures '/' !in r
  {
    var e := EndOfName(p);
    var s := StartOfName(p, e);
    assert forall i :: 0 <= i < e - s ==> p[s..e][i] == p[s + i];
    p[s..e]
  }

  /**
   * The slash that ends the directory part of `p`: scanning from the end
   * down to index 1, the first slash met after some non-slash character.
   */
  function DirEnd(p: string, i: int, matchedSlash: bool): (r: Option<nat>)
    requires i < |p|
    ensures r.Some? ==> 1 <= r.value <= i && p[r.value] == '/'
    decreases i
  {
    if i < 1 then None
    else if p[i] == '/' then (if !matchedSlash then Some(i) else DirEnd(p, i - 1, true))
    else DirEnd(p, i - 1, false)
  }

  /** `path.dirname(p)`. */
  function Dirname(p: string): string {
    if |p| == 0 then "."
    else
      match DirEnd(p, |p| - 1, true)
      case None => if IsAbsolute(p) then "/" else "."
      case Some(end) => if IsAbsolute(p) && end == 1 then "//" else p[..end]
  }

  // ---------------------------------------------------------------------------
  // Normalization lemmas
  // ---------------------------------------------------------------------------

  /** Resolving a concatenation resolves the second part from where the first left off. */
  lemma {:induction false} ResolveAppend(stack: seq<string>, xs: seq<string>, ys: seq<string>, allowAboveRoot: bool)
    ensures Resolve(stack, xs + ys, allowAboveRoot) == Resolve(Resolve(stack, xs, allowAboveRoot), ys, allowAboveRoot)
    decreases |xs|
  {
    if |xs| > 0 {
      var st := Step(stack, xs[0], allowAboveRoot);
      assert (xs + ys)[0] == xs[0];
      assert (xs + ys)[1..] == xs[1..] + ys;
      assert Resolve(stack, xs + ys, allowAboveRoot) == Resolve(st, xs[1..] + ys, allowAboveRoot);
      assert Resolve(stack, xs, allowAboveRoot) == Resolve(st, xs[1..], allowAboveRoot);
      ResolveAppend(st, xs[1..], ys, allowAboveRoot);
    } else {
      assert xs + ys == ys;
    }
  }

  /** An absolute path normalizes to names only: no empty, `.` or `..` segment survives. */
  lemma {:induction false} ResolveKeepsNames(stack: seq<string>, segs: seq<string>)
    requires AllNames(stack)
    requires forall i :: 0 <= i < |segs| ==> '/' !in segs[i]
    ensures AllNames(Resolve(stack, segs, false))
    decreases |segs|
  {
    if |segs| > 0 {
      ResolveKeepsNames(Step(stack, segs[0], false), segs[1..]);
    }
  }

  /** The segments of a path without `..`: its names, in order, with empty and `.` segments dropped. */
  function Clean(segs: seq<string>): (r: seq<string>)
    ensures |r| <= |segs|
  {
    if |segs| == 0 then []
    else if segs[0] == "" || segs[0] == "." then Clean(segs[1..])
    else [segs[0]] + Clean(segs[1..])
  }

  /** Without `..`, resolving only appends the remaining names. */
  lemma {:induction false} ResolveWithoutParentRefs(stack: seq<string>, segs: seq<string>, allowAboveRoot: bool)
    requires NoParentRefs(segs)
    ensures Resolve(stack, segs, allowAboveRoot) == stack + Clean(segs)
    decreases |segs|
  {
    if |segs| > 0 {
      assert NoParentRefs(segs[1..]) by {
        forall i | 0 <= i < |segs[1..]| ensures segs[1..][i] != ".." { assert segs[1..][i] == segs[i + 1]; }
      }
      ResolveWithoutParentRefs(Step(stack, segs[0], allowAboveRoot), segs[1..], allowAboveRoot);
    }
  }

  /** Names pass through `Clean` unchanged. */
  lemma {:induction false} CleanNames(segs: seq<string>)
    requires AllNames(segs)
    ensures Clean(segs) == segs
    decreases |segs|
  {
    if |segs| > 0 {
      CleanNames(segs[1..]);
      assert segs == [segs[0]] + segs[1..];
    }
  }

  lemma AllNamesNoParentRefs(segs: seq<string>)
    requires AllNames(segs)
    ensures NoParentRefs(segs)
  {
  }

  lemma {:induction false} CleanKeepsSlashFree(segs: seq<string>)
    requires forall i :: 0 <= i < |segs| ==> '/' !in segs[i]
    requires NoParentRefs(segs)
    ensures AllNames(Clean(segs))
    decreases |segs|
  {
    if |segs| > 0 {
      assert NoParentRefs(segs[1..]) by {
        forall i | 0 <= i < |segs[1..]| ensures segs[1..][i] != ".." { assert segs[1..][i] == segs[i + 1]; }
      }
      CleanKeepsSlashFree(segs[1..]);
    }
  }

  /** The segments of an absolute path are names. */
  lemma AbsoluteSegmentsAreNames(p: string)
    requires IsAbsolute(p)
    ensures AllNames(Segments(p))
  {
    ResolveKeepsNames([], Split(p));
  }

  /** A name list without `..` joins to a string that ends in a name character, not a slash. */
  lemma JoinOfNamesEndsInName(segs: seq<string>)
    requires |segs| >= 1 && AllNames(segs)
    ensures |Join(segs)| >= 1 && Join(segs)[|Join(segs)| - 1] != '/'
    decreases |segs|
  {
    if |segs| > 1 {
      JoinOfNamesEndsInName(segs[1..]);
    } else {
      assert segs[0][|segs[0]| - 1] in segs[0];
    }
  }

  /** Rendering names and taking its segments gives the names back; the rendering is already normal. */
  lemma {:induction false} RenderRoundTrip(segs: seq<string>)
    requires AllNames(segs)
    ensures Segments(Render(segs)) == segs
    ensures Normalize(Render(segs)) == Render(segs)
  {
    if |segs| == 0 {
      assert Render(segs) == "/";
      assert Split("/") == [""] + Split("");
      assert Segments(Render(segs)) == [];
    } else {
      SplitAppend("", Join(segs));
      assert Render(segs) == "" + "/" + Join(segs);
      SplitJoin(segs);
      assert Split(Render(segs)) == [""] + segs;
      AllNamesNoParentRefs(segs);
      ResolveWithoutParentRefs([], [""] + segs, false);
      CleanNames(segs);
      assert Clean([""] + segs) == Clean(segs);
      JoinOfNamesEndsInName(segs);
      var r := Render(segs);
      assert r[|r| - 1] == Join(segs)[|Join(segs)| - 1];
    }
  }

  /** Rendering names with a trailing slash has the same segments. */
  lemma {:induction false} RenderTrailingSegments(segs: seq<string>)
    requires AllNames(segs) && |segs| >= 1
    ensures Segments(Render(segs) + "/") == segs
  {
    SplitRenderTrailing(segs);
    AllNamesNoParentRefs(segs);
    assert NoParentRefs([""] + (segs + [""]));
    ResolveWithoutParentRefs([], [""] + (segs + [""]), false);
    CleanNames(segs);
    CleanAppend([""], segs + [""]);
    CleanAppend(segs, [""]);
  }

  /** The pieces of a rendering with a trailing slash: an empty piece, the names, an empty piece. */
  lemma SplitRenderTrailing(segs: seq<string>)
    requires AllNames(segs) && |segs| >= 1
    ensures Split(Render(segs) + "/") == [""] + (segs + [""])
  {
    var j := Join(segs);
    SplitJoin(segs);
    SplitAppend(j, "");
    assert j + "/" + "" == j + "/";
    SplitAppend("", j + "/");
    assert "" + "/" + (j + "/") == Render(segs) + "/";
  }

  lemma {:induction false} CleanAppend(xs: seq<string>, ys: seq<string>)
    ensures Clean(xs + ys) == Clean(xs) + Clean(ys)
    decreases |xs|
  {
    if |xs| > 0 {
      assert (xs + ys)[1..] == xs[1..] + ys;
      CleanAppend(xs[1..], ys);
    } else {
      assert xs + ys == ys;
    }
  }

  /** The shape of a normalized absolute path: a rendering of its segments, plus the input's trailing slash. */
  lemma NormalizeAbsolute(p: string)
    requires IsAbsolute(p)
    ensures AllNames(Segments(p))
    ensures Normalize(p) == if |Segments(p)| == 0 then "/"
                            else Render(Segments(p)) + (if p[|p| - 1] == '/' then "/" else "")
  {
    AbsoluteSegmentsAreNames(p);
  }

  /** `path.normalize` is idempotent on absolute paths, with the same segments before and after. */
  lemma NormalizeIdempotent(p: string)
    requires IsAbsolute(p)
    ensures IsAbsolute(Normalize(p))
    ensures Segments(Normalize(p)) == Segments(p)
    ensures Normalize(Normalize(p)) == Normalize(p)
  {
    NormalizeAbsolute(p);
    var segs := Segments(p);
    if |segs| == 0 {
      RenderRoundTrip([]);
    } else if p[|p| - 1] == '/' {
      RenderTrailingSegments(segs);
      var n := Render(segs) + "/";
      assert n[|n| - 1] == '/';
    } else {
      RenderRoundTrip(segs);
    }
  }

  // ---------------------------------------------------------------------------
  // What a string-prefix test on normalized absolute paths means
  // ---------------------------------------------------------------------------

  /** `ns` names a path inside (or equal to) the directory named by `ts`. */
  predicate Within(ns: seq<string>, ts: seq<string>) {
    |ts| <= |ns| && ns[..|ts|] == ts
  }

  /**
   * The string test `Render(ns).startsWith(Render(ts))` holds exactly when
   * `ns` has the same parent as the directory `ts` and continues with a
   * segment that merely STARTS WITH the directory's own name: the directory
   * itself, anything in it, but also any sibling whose name extends it.
   */
  predicate PrefixAdmits(ns: seq<string>, ts: seq<string>)
    requires |ts| >= 1
  {
    |ns| >= |ts| && ns[..|ts| - 1] == ts[..|ts| - 1] && StartsWith(ns[|ts| - 1], ts[|ts| - 1])
  }

  lemma {:induction false} JoinPrefixOfNames(ns: seq<string>, ts: seq<string>)
    requires AllNames(ns) && AllNames(ts) && |ts| >= 1
    requires StartsWith(Join(ns), Join(ts))
    ensures PrefixAdmits(ns, ts)
    decreases |ts|
  {
    var jn, jt := Join(ns), Join(ts);
    var t0 := ts[0];
    assert |t0| >= 1;
    assert |ns| >= 1;
    var n0 := ns[0];
    assert jn[..|n0|] == n0;
    assert jt[..|t0|] == t0;
    assert |ns| > 1 ==> jn[|n0|] == '/';
    assert |ts| > 1 ==> jt[|t0|] == '/';
    // at index |n0|, jn is either past its end or a slash, while t0 has no slash
    assert |t0| <= |n0|;
    if |ts| == 1 {
      assert jt == t0;
      assert n0[..|t0|] == jn[..|t0|];
    } else {
      assert |n0| <= |t0|;
      assert n0 == t0 by { assert n0 == jn[..|n0|] == jt[..|t0|] == t0; }
      assert |ns| > 1;
      assert jn == n0 + "/" + Join(ns[1..]);
      assert jt == t0 + "/" + Join(ts[1..]);
      assert StartsWith(Join(ns[1..]), Join(ts[1..])) by {
        var k := |t0| + 1;
        assert Join(ns[1..]) == jn[k..];
        assert Join(ts[1..]) == jt[k..];
      }
      assert AllNames(ns[1..]) by {
        forall i | 0 <= i < |ns[1..]| ensures IsName(ns[1..][i]) { assert ns[1..][i] == ns[i + 1]; }
      }
      assert AllNames(ts[1..]) by {
        forall i | 0 <= i < |ts[1..]| ensures IsName(ts[1..][i]) { assert ts[1..][i] == ts[i + 1]; }
      }
      JoinPrefixOfNames(ns[1..], ts[1..]);
      assert ns[..|ts| - 1] == [n0] + ns[1..][..|ts| - 2];
      assert ts[..|ts| - 1] == [t0] + ts[1..][..|ts| - 2];
    }
  }

  lemma {:induction false} PrefixAdmitsJoin(ns: seq<string>, ts: seq<string>)
    requires AllNames(ns) && AllNames(ts) && |ts| >= 1
    requires PrefixAdmits(ns, ts)
    ensures StartsWith(Join(ns), Join(ts))
  {
    var k := |ts| - 1;
    var head := ts[..k];
    var last := ns[k..];
    assert ns == head + last;
    assert ts == head + [ts[k]];
    assert Join(last) == last[0] || Join(last) == last[0] + "/" + Join(last[1..]);
    assert StartsWith(Join(last), ts[k]);
    if k == 0 {
      assert ns == last && ts == [ts[k]];
    } else {
      JoinAppend(head, last);
      JoinAppend(head, [ts[k]]);
      assert Join(ts) == Join(head) + "/" + ts[k];
      assert Join(ns) == Join(head) + "/" + Join(last);
      assert Join(ns)[..|Join(ts)|] == Join(head) + "/" + Join(last)[..|ts[k]|];
    }
  }

  /**
   * The string-prefix guard on normalized absolute paths, stated on
   * segments: the rendering of `ns` starts with the rendering of `ts` if and
   * only if `PrefixAdmits(ns, ts)`.
   */
  lemma PrefixGuardMeaning(ns: seq<string>, ts: seq<string>)
    requires AllNames(ns) && AllNames(ts) && |ts| >= 1
    ensures StartsWith(Render(ns), Render(ts)) <==> PrefixAdmits(ns, ts)
  {
    assert StartsWith(Render(ns), Render(ts)) <==> StartsWith(Join(ns), Join(ts)) by {
      if StartsWith(Render(ns), Render(ts)) {
        assert Join(ns)[..|Join(ts)|] == Render(ns)[1..|Render(ts)|];
      }
      if StartsWith(Join(ns), Join(ts)) {
        assert Render(ns)[..|Render(ts)|] == "/" + Join(ns)[..|Join(ts)|];
      }
    }
    if StartsWith(Join(ns), Join(ts)) {
      JoinPrefixOfNames(ns, ts);
    }
    if PrefixAdmits(ns, ts) {
      PrefixAdmitsJoin(ns, ts);
    }
  }

  /**
   * The same guard when the normalized path may carry a trailing slash, or
   * collapsed to the root: the slash changes nothing, and the root is
   * never admitted.
   */
  lemma PrefixGuardWithTrailing(ns: seq<string>, ts: seq<string>, trailing: bool)
    requires AllNames(ns) && AllNames(ts) && |ts| >= 1
    ensures StartsWith(if |ns| == 0 then "/" else Render(ns) + (if trailing then "/" else ""), Render(ts))
            <==> PrefixAdmits(ns, ts)
  {
    var t := Render(ts);
    JoinOfNamesEndsInName(ts);
    assert |t| >= 2 && t[|t| - 1] != '/';
    if |ns| > 0 {
      var r := Render(ns);
      PrefixGuardMeaning(ns, ts);
      if trailing {
        if StartsWith(r + "/", t) {
          assert (r + "/")[..|t|] == t;
          assert |t| <= |r|;
          assert (r + "/")[..|t|] == r[..|t|];
        }
        if StartsWith(r, t) {
          assert (r + "/")[..|t|] == r[..|t|];
        }
      }
    }
  }

  /** Everything inside the directory passes the string-prefix guard. */
  lemma WithinIsAdmitted(ns: seq<string>, ts: seq<string>)
    requires AllNames(ns) && AllNames(ts) && |ts| >= 1
    requires Within(ns, ts)
    ensures StartsWith(Render(ns), Render(ts))
  {
    assert ns[..|ts|][..|ts| - 1] == ns[..|ts| - 1];
    PrefixGuardMeaning(ns, ts);
  }

  /**
   * Joining a relative name without `..` onto a directory and normalizing
   * lands inside that directory, at the directory's segments followed by the
   * name's own segments.
   */
  lemma JoinWithoutParentRefs(ts: seq<string>, s: string)
    requires AllNames(ts)
    requires s != "" && NoParentRefs(Split(s))
    ensures var n := Normalize(JoinPaths([Render(ts), s]));
      IsAbsolute(n) && Segments(n) == ts + Clean(Split(s)) && AllNames(Segments(n))
  {
    var t := Render(ts);
    var joined := t + "/" + s;
    assert JoinPaths([t, s]) == Normalize(joined) by {
      assert t != "" && [t, s][1..] == [s];
      assert NonEmpty([s]) == [s] + NonEmpty([]);
      assert NonEmpty([t, s]) == [t, s];
      assert Join([t, s]) == joined;
    }
    assert Segments(joined) == ts + Clean(Split(s)) by {
      SplitAppend(t, s);
      RenderRoundTrip(ts);
      assert IsAbsolute(joined);
      ResolveAppend([], Split(t), Split(s), false);
      ResolveWithoutParentRefs(ts, Split(s), false);
    }
    NormalizeIdempotent(joined);
    AbsoluteSegmentsAreNames(joined);
  }

  // ---------------------------------------------------------------------------
  // dirname of a normalized absolute path
  // ---------------------------------------------------------------------------

  lemma {:induction false} DirEndWithoutSlash(p: string, i: int, matchedSlash: bool)
    requires i < |p|
    requires forall j :: 1 <= j <= i ==> p[j] != '/'
    ensures DirEnd(p, i, matchedSlash).None?
    decreases i
  {
    if i >= 1 {
      DirEndWithoutSlash(p, i - 1, false);
    }
  }

  lemma {:induction false} DirEndFindsSlash(p: string, i: int, k: nat, matchedSlash: bool)
    requires 1 <= k < i < |p|
    requires p[k] == '/'
    requires forall j :: k < j <= i ==> p[j] != '/'
    ensures DirEnd(p, i, matchedSlash) == Some(k)
    decreases i
  {
    if i - 1 > k {
      DirEndFindsSlash(p, i - 1, k, false);
    }
  }

  lemma DirnameOfTopLevel(last: string, trailing: bool)
    requires IsName(last)
    ensures Dirname("/" + last + (if trailing then "/" else "")) == "/"
  {
    var r := "/" + last;
    var p := r + (if trailing then "/" else "");
    assert forall j :: 1 <= j <= |r| - 1 ==> p[j] != '/' by {
      forall j | 1 <= j <= |r| - 1 ensures p[j] != '/' {
        assert p[j] == last[j - 1];
        assert last[j - 1] in last;
      }
    }
    if trailing {
      DirEndWithoutSlash(p, |p| - 2, true);
      assert DirEnd(p, |p| - 1, true) == DirEnd(p, |p| - 2, true);
    } else {
      DirEndWithoutSlash(p, |p| - 1, true);
    }
  }

  lemma DirnameOfNested(dir: string, last: string, trailing: bool)
    requires |dir| >= 2 && IsName(last)
    ensures Dirname(dir + "/" + last + (if trailing then "/" else "")) == dir
  {
    var r := dir + "/" + last;
    var p := r + (if trailing then "/" else "");
    var k := |dir|;
    assert p[k] == '/';
    assert forall j :: k < j < |r| ==> p[j] != '/' by {
      forall j | k < j < |r| ensures p[j] != '/' {
        assert p[j] == last[j - k - 1];
        assert last[j - k - 1] in last;
      }
    }
    DirEndFindsSlash(p, |r| - 1, k, true);
    if trailing {
      assert DirEnd(p, |p| - 1, true) == DirEnd(p, |p| - 2, true);
    }
    assert p[..k] == dir;
  }

  /** The directory part of a normalized absolute path (with or without its trailing slash) is its parent. */
  lemma DirnameOfNormalized(segs: seq<string>, trailing: bool)
    requires AllNames(segs) && |segs| >= 1
    ensures var p := Render(segs) + (if trailing then "/" else "");
      Segments(Dirname(p)) == segs[..|segs| - 1] && IsAbsolute(Dirname(p))
  {
    var n := |segs|;
    var init, last := segs[..n - 1], segs[n - 1];
    assert IsName(last);
    assert AllNames(init) by {
      forall i | 0 <= i < |init| ensures IsName(init[i]) { assert init[i] == segs[i]; }
    }
    if n == 1 {
      assert Render(segs) == "/" + last;
      DirnameOfTopLevel(last, trailing);
      RenderRoundTrip([]);
      assert init == [];
    } else {
      assert segs == init + [last];
      JoinAppend(init, [last]);
      assert Render(segs) == Render(init) + "/" + last;
      assert |Join(init)| >= 1;
      DirnameOfNested(Render(init), last, trailing);
      RenderRoundTrip(init);
    }
  }
}
