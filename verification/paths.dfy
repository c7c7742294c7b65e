/** The part of Node's POSIX `path` module the tool relies on, on paths seen
    as sequences of segments: `isAbsolute`, `join`, `resolve`, `relative`,
    `dirname`, `basename`. Normalisation drops empty and `.` segments and
    resolves `..` (above the root of an absolute path it is dropped; at the
    front of a relative path it is kept). */
module Paths {
  import opened Text

  datatype Path = Path(absolute: bool, segs: seq<string>)

  predicate IsAbsolute(s: string) {
    |s| > 0 && s[0] == '/'
  }

  /** A plain directory or file name: what a normalised path is made of. */
  predicate IsName(s: string) {
    s != "" && s != "." && s != ".." && '/' !in s
  }

  /** `s.split("/")`. */
  function SplitOn(s: string): (r: seq<string>)
    ensures |r| >= 1
    ensures forall i :: 0 <= i < |r| ==> '/' !in r[i]
  {
    Split(s, '/')
  }

  /** `segs.join("/")`. */
  function JoinSegs(segs: seq<string>): string {
    JoinWith(segs, '/')
  }


  // ---------------------------------------------------------------- normalising

  /** One step of Node's `normalizeString`. */
  function PushSeg(absolute: bool, stack: seq<string>, seg: string): seq<string> {
    if seg == "" || seg == "." then stack
    else if seg == ".." then
      if stack != [] && stack[|stack| - 1] != ".." then stack[..|stack| - 1]
      else if absolute then stack
      else stack + [".."]
    else stack + [seg]
  }

  function NormFold(absolute: bool, stack: seq<string>, segs: seq<string>): seq<string>
    decreases |segs|
  {
    if segs == [] then stack else NormFold(absolute, PushSeg(absolute, stack, segs[0]), segs[1..])
  }

  function Normalize(p: Path): Path {
    Path(p.absolute, NormFold(p.absolute, [], p.segs))
  }

  /** Normal form: names only, except a leading run of `..` in a relative path. */
  predicate NormalSegs(absolute: bool, segs: seq<string>) {
    && (forall i :: 0 <= i < |segs| ==> IsName(segs[i]) || (!absolute && segs[i] == ".."))
    && (forall i, j :: 0 <= i < j < |segs| && segs[j] == ".." ==> segs[i] == "..")
  }

  predicate IsNormal(p: Path) {
    NormalSegs(p.absolute, p.segs)
  }

  lemma PushSegNormal(absolute: bool, stack: seq<string>, seg: string)
    requires NormalSegs(absolute, stack) && '/' !in seg
    ensures NormalSegs(absolute, PushSeg(absolute, stack, seg))
  {
  }

  lemma {:induction false} NormFoldNormal(absolute: bool, stack: seq<string>, segs: seq<string>)
    requires NormalSegs(absolute, stack)
    requires forall i :: 0 <= i < |segs| ==> '/' !in segs[i]
    ensures NormalSegs(absolute, NormFold(absolute, stack, segs))
    decreases |segs|
  {
    if segs != [] {
      PushSegNormal(absolute, stack, segs[0]);
      NormFoldNormal(absolute, PushSeg(absolute, stack, segs[0]), segs[1..]);
    }
  }

  /** A path already in normal form passes through normalisation unchanged. */
  lemma {:induction false} NormFoldOfNormal(absolute: bool, stack: seq<string>, segs: seq<string>)
    requires NormalSegs(absolute, stack + segs)
    ensures NormFold(absolute, stack, segs) == stack + segs
    decreases |segs|
  {
    if segs != [] {
      var s := segs[0];
      assert (stack + segs)[|stack|] == s;
      if s == ".." {
        forall i | 0 <= i < |stack| ensures stack[i] == ".." {
          assert (stack + segs)[i] == stack[i];
        }
      }
      assert PushSeg(absolute, stack, s) == stack + [s];
      assert stack + [s] + segs[1..] == stack + segs;
      NormFoldOfNormal(absolute, stack + [s], segs[1..]);
    }
  }

  lemma NormalizeIsNormal(p: Path)
    requires forall i :: 0 <= i < |p.segs| ==> '/' !in p.segs[i]
    ensures IsNormal(Normalize(p))
  {
    NormFoldNormal(p.absolute, [], p.segs);
  }

  lemma NormalizeOfNormal(p: Path)
    requires IsNormal(p)
    ensures Normalize(p) == p
  {
    assert [] + p.segs == p.segs;
    NormFoldOfNormal(p.absolute, [], p.segs);
  }

  /** Normalisation is idempotent. */
  lemma NormalizeIdempotent(p: Path)
    requires forall i :: 0 <= i < |p.segs| ==> '/' !in p.segs[i]
    ensures Normalize(Normalize(p)) == Normalize(p)
  {
    NormalizeIsNormal(p);
    NormalizeOfNormal(Normalize(p));
  }

  // ---------------------------------------------------------------- strings

  function Format(p: Path): string {
    if p.absolute then "/" + JoinSegs(p.segs) else JoinSegs(p.segs)
  }

  function Parse(s: string): Path {
    Path(IsAbsolute(s), SplitOn(s))
  }

  /** How `normalize` and `join` print a path: the empty relative path is ".". */
  function Show(p: Path): string {
    if !p.absolute && p.segs == [] then "." else Format(p)
  }

  /** `path.join(a, b)`. */
  function Join(a: string, b: string): string {
    Show(Normalize(Path(IsAbsolute(a) || (a == "" && IsAbsolute(b)), SplitOn(a) + SplitOn(b))))
  }

  /** The absolute, normalised path `path.resolve(s)` stands for, `cwd` being
      the process's working directory. */
  function ResolvedPath(cwd: string, s: string): (r: Path)
    ensures r.absolute && IsNormal(r)
  {
    var raw := if IsAbsolute(s) then SplitOn(s) else SplitOn(cwd) + SplitOn(s);
    NormalizeIsNormal(Path(true, raw));
    Normalize(Path(true, raw))
  }

  /** `path.resolve(s)`. */
  function Resolve(cwd: string, s: string): string {
    Format(ResolvedPath(cwd, s))
  }

  function DropTrailingEmpty(segs: seq<string>): (r: seq<string>)
    ensures |r| <= |segs| && r == segs[..|r|]
    ensures r != [] ==> r[|r| - 1] != ""
    decreases |segs|
  {
    if segs != [] && segs[|segs| - 1] == "" then DropTrailingEmpty(segs[..|segs| - 1]) else segs
  }

  /** `path.dirname(s)` (trailing slashes ignored). */
  function Dirname(s: string): string {
    var segs := DropTrailingEmpty(SplitOn(s));
    if |segs| <= 1 then (if IsAbsolute(s) then "/" else ".")
    else
      var d := JoinSegs(segs[..|segs| - 1]);
      if d == "" then "/" else d
  }

  /** `path.basename(s)` (trailing slashes ignored). */
  function Basename(s: string): string {
    var segs := DropTrailingEmpty(SplitOn(s));
    if segs == [] then "" else segs[|segs| - 1]
  }

  function CommonPrefixLength(a: seq<string>, b: seq<string>): (k: nat)
    ensures k <= |a| && k <= |b| && a[..k] == b[..k]
    ensures k < |a| && k < |b| ==> a[k] != b[k]
  {
    if a == [] || b == [] || a[0] != b[0] then 0
    else
      var k := CommonPrefixLength(a[1..], b[1..]);
      assert a[..k + 1] == [a[0]] + a[1..][..k];
      assert b[..k + 1] == [b[0]] + b[1..][..k];
      k + 1
  }

  function Ups(n: nat): (r: seq<string>)
    ensures |r| == n && forall i :: 0 <= i < n ==> r[i] == ".."
  {
    if n == 0 then [] else [".."] + Ups(n - 1)
  }

  function RelativeSegs(from: seq<string>, to: seq<string>): seq<string> {
    var k := CommonPrefixLength(from, to);
    Ups(|from| - k) + to[k..]
  }

  /** `path.relative(from, to)`: both are resolved first; equal paths give "". */
  function Relative(cwd: string, from: string, to: string): string {
    JoinSegs(RelativeSegs(ResolvedPath(cwd, from).segs, ResolvedPath(cwd, to).segs))
  }

  // ---------------------------------------------------------------- facts

  lemma {:induction false} JoinSegsEmpty(segs: seq<string>)
    requires forall i :: 0 <= i < |segs| ==> segs[i] != ""
    ensures JoinSegs(segs) == "" <==> segs == []
  {
    if |segs| > 1 {
      assert JoinSegs(segs)[|segs[0]|] == '/';
    }
  }

  /** A joined path starts with ".." exactly when its first segment does. */
  lemma JoinSegsStartsWithDots(segs: seq<string>)
    requires segs != []
    ensures StartsWith(JoinSegs(segs), "..") <==> StartsWith(segs[0], "..")
  {
    var s := JoinSegs(segs);
    if |segs| > 1 {
      assert s == segs[0] + ("/" + JoinSegs(segs[1..]));
      if |segs[0]| == 1 {
        assert s[1] == '/';
      } else if |segs[0]| == 0 {
        assert s[0] == '/';
      } else {
        assert s[..2] == segs[0][..2];
      }
    }
  }

  lemma JoinSegsFirstChar(segs: seq<string>)
    requires segs != [] && segs[0] != ""
    ensures JoinSegs(segs) != "" && JoinSegs(segs)[0] == segs[0][0]
  {
    if |segs| > 1 {
      assert JoinSegs(segs) == segs[0] + ("/" + JoinSegs(segs[1..]));
    }
  }

  lemma NormalSegsNames(segs: seq<string>)
    requires NormalSegs(true, segs)
    ensures forall i :: 0 <= i < |segs| ==> IsName(segs[i])
  {
  }

  /** How an absolute normal path splits back into pieces: the root's empty
      piece first. */
  lemma SplitFormatAbsolute(segs: seq<string>)
    requires NormalSegs(true, segs)
    ensures SplitOn(Format(Path(true, segs))) == [""] + (if segs == [] then [""] else segs)
  {
    var s := Format(Path(true, segs));
    assert s == [] + "/" + JoinSegs(segs);
    SplitConcat([], JoinSegs(segs), '/');
    if segs != [] {
      SplitJoin(segs, '/');
    }
  }

  /** A leading empty piece (the root's, or a doubled slash) is skipped. */
  lemma NormFoldDropsEmpty(absolute: bool, segs: seq<string>)
    ensures NormFold(absolute, [], [""] + segs) == NormFold(absolute, [], segs)
  {
    assert ([""] + segs)[1..] == segs;
  }

  lemma NormFoldOfNormalFromEmpty(absolute: bool, segs: seq<string>)
    requires NormalSegs(absolute, segs)
    ensures NormFold(absolute, [], segs) == segs
  {
    assert [] + segs == segs;
    NormFoldOfNormal(absolute, [], segs);
  }

  /** Parsing a printed absolute normal path gives it back. */
  lemma ParseFormatAbsolute(segs: seq<string>)
    requires NormalSegs(true, segs)
    ensures Normalize(Parse(Format(Path(true, segs)))) == Path(true, segs)
  {
    SplitFormatAbsolute(segs);
    if segs == [] {
      NormFoldDropsEmpty(true, [""]);
      NormFoldDropsEmpty(true, []);
      assert [""] + [] == [""];
    } else {
      NormFoldDropsEmpty(true, segs);
      NormFoldOfNormalFromEmpty(true, segs);
    }
  }

  /** Resolving a path that is already absolute and normal changes nothing. */
  lemma ResolveResolved(cwd: string, segs: seq<string>)
    requires NormalSegs(true, segs)
    ensures ResolvedPath(cwd, Format(Path(true, segs))) == Path(true, segs)
    ensures Resolve(cwd, Format(Path(true, segs))) == Format(Path(true, segs))
  {
    ParseFormatAbsolute(segs);
  }

  lemma DropTrailingEmptyNone(segs: seq<string>)
    requires segs != [] && segs[|segs| - 1] != ""
    ensures DropTrailingEmpty(segs) == segs
  {
  }

  /** The directory part of an absolute normal path drops its last name. */
  lemma DirnameOf(segs: seq<string>)
    requires NormalSegs(true, segs) && segs != []
    ensures Dirname(Format(Path(true, segs))) == Format(Path(true, segs[..|segs| - 1]))
  {
    var s := Format(Path(true, segs));
    SplitFormatAbsolute(segs);
    var parts := [""] + segs;
    assert SplitOn(s) == parts;
    DropTrailingEmptyNone(parts);
    var init := parts[..|parts| - 1];
    assert init == [""] + segs[..|segs| - 1];
    if |segs| > 1 {
      assert JoinSegs(init) == "" + "/" + JoinSegs(init[1..]);
      assert init[1..] == segs[..|segs| - 1];
    }
  }

  /** The last name of an absolute normal path. */
  lemma BasenameOf(segs: seq<string>)
    requires NormalSegs(true, segs) && segs != []
    ensures Basename(Format(Path(true, segs))) == segs[|segs| - 1]
  {
    var s := Format(Path(true, segs));
    SplitFormatAbsolute(segs);
    var parts := [""] + segs;
    assert SplitOn(s) == parts;
    DropTrailingEmptyNone(parts);
    assert parts[|parts| - 1] == segs[|segs| - 1];
  }

  lemma DirnameRoot()
    ensures Dirname("/") == "/"
  {
    assert SplitOn("/") == ["", ""];
    assert DropTrailingEmpty(["", ""]) == [];
  }

  /** Joining a name onto an absolute normal path appends the name. */
  lemma JoinName(segs: seq<string>, name: string)
    requires NormalSegs(true, segs) && IsName(name)
    ensures Join(Format(Path(true, segs)), name) == Format(Path(true, segs + [name]))
  {
    var s := Format(Path(true, segs));
    SplitFormatAbsolute(segs);
    SplitNoSep(name, '/');
    var raw := SplitOn(s) + SplitOn(name);
    assert NormalSegs(true, segs + [name]);
    if segs == [] {
      assert raw == [""] + ([""] + [name]);
      NormFoldDropsEmpty(true, [""] + [name]);
      NormFoldDropsEmpty(true, [name]);
      NormFoldOfNormalFromEmpty(true, [name]);
    } else {
      assert raw == [""] + (segs + [name]);
      NormFoldDropsEmpty(true, segs + [name]);
      NormFoldOfNormalFromEmpty(true, segs + [name]);
    }
  }

  /** A name joined onto an absolute normal path is a child of that path:
      its directory is the path and its base name is the name. */
  lemma JoinedNameParts(segs: seq<string>, name: string)
    requires NormalSegs(true, segs) && IsName(name)
    ensures Dirname(Join(Format(Path(true, segs)), name)) == Format(Path(true, segs))
    ensures Basename(Join(Format(Path(true, segs)), name)) == name
  {
    JoinName(segs, name);
    assert NormalSegs(true, segs + [name]);
    DirnameOf(segs + [name]);
    BasenameOf(segs + [name]);
    assert (segs + [name])[..|segs|] == segs;
  }

  lemma JoinRootEmpty()
    ensures Join("/", "") == "/"
  {
    assert SplitOn("/") == ["", ""];
    assert SplitOn("") == [""];
    assert SplitOn("/") + SplitOn("") == ["", "", ""];
    assert NormFold(true, [], ["", "", ""]) == NormFold(true, [], ["", ""]);
    assert NormFold(true, [], ["", ""]) == NormFold(true, [], [""]);
    assert NormFold(true, [], [""]) == [];
  }

  /** The path `path.join(a, b)` stands for when `a` is absolute. */
  function JoinedPath(a: string, b: string): (r: Path)
    ensures r.absolute && IsNormal(r)
  {
    var raw := SplitOn(a) + SplitOn(b);
    assert forall i :: 0 <= i < |raw| ==> '/' !in raw[i] by {
      forall i | 0 <= i < |raw| ensures '/' !in raw[i] {
        if i >= |SplitOn(a)| { assert raw[i] == SplitOn(b)[i - |SplitOn(a)|]; }
      }
    }
    NormalizeIsNormal(Path(true, raw));
    Normalize(Path(true, raw))
  }

  /** Joining onto an absolute path prints an absolute normal path. */
  lemma JoinAbsolute(a: string, b: string)
    requires IsAbsolute(a)
    ensures Join(a, b) == Format(JoinedPath(a, b))
    ensures IsAbsolute(Join(a, b))
  {
  }

  /** An absolute normal path is its directory joined with its name relative
      to that directory (the root, whose directory is itself, included). */
  lemma RejoinParent(cwd: string, segs: seq<string>)
    requires NormalSegs(true, segs)
    ensures
      var t := Format(Path(true, segs));
      var dir := Resolve(cwd, Dirname(t));
      IsAbsolute(dir) && Join(dir, Relative(cwd, dir, t)) == t
  {
    if segs == [] {
      DirnameRoot();
      ResolveResolved(cwd, []);
      JoinRootEmpty();
    } else {
      var init := segs[..|segs| - 1];
      assert init + [segs[|segs| - 1]] == segs;
      RejoinChild(cwd, init, segs[|segs| - 1]);
    }
  }

  lemma RejoinChild(cwd: string, init: seq<string>, last: string)
    requires NormalSegs(true, init + [last])
    ensures
      var t := Format(Path(true, init + [last]));
      var dir := Resolve(cwd, Dirname(t));
      && dir == Format(Path(true, init)) && Relative(cwd, dir, t) == last
      && IsAbsolute(dir) && Join(dir, last) == t
  {
    var segs := init + [last];
    assert segs[..|segs| - 1] == init;
    assert NormalSegs(true, init);
    DirnameOf(segs);
    ResolveResolved(cwd, init);
    ResolveResolved(cwd, segs);
    RelativeToExtension(init, [last]);
    assert JoinSegs([last]) == last;
    NormalSegsNames(segs);
    assert IsName(segs[|segs| - 1]);
    JoinName(init, last);
    FormatAbsoluteIsAbsolute(Path(true, init));
  }

  lemma RelativeToExtension(base: seq<string>, rest: seq<string>)
    ensures RelativeSegs(base, base + rest) == rest
  {
    assert (base + rest)[|base|..] == rest;
  }

  lemma FormatAbsoluteIsAbsolute(p: Path)
    requires p.absolute
    ensures IsAbsolute(Format(p))
  {
  }

  /** `path.resolve(a, b)` with `a` absolute and `b` relative is `path.join(a, b)`. */
  lemma ResolveAgainstAbsolute(a: string, b: string)
    requires IsAbsolute(a) && !IsAbsolute(b)
    ensures Resolve(a, b) == Join(a, b)
  {
  }

  /** `path.resolve(dir, name)` for a listed name appends it. */
  lemma ResolveName(segs: seq<string>, name: string)
    requires NormalSegs(true, segs) && IsName(name)
    ensures Resolve(Format(Path(true, segs)), name) == Format(Path(true, segs + [name]))
  {
    ResolveAgainstAbsolute(Format(Path(true, segs)), name);
    JoinName(segs, name);
  }

  /** Distinct absolute normal paths print differently. */
  lemma FormatInjective(a: seq<string>, b: seq<string>)
    requires NormalSegs(true, a) && NormalSegs(true, b)
    ensures Format(Path(true, a)) == Format(Path(true, b)) <==> a == b
  {
    ResolveResolved("/", a);
    ResolveResolved("/", b);
  }
}
