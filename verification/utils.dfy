/** The helpers of src/utils.ts that carry logic: the working-tree membership
    test, the record test and the string guard. */
module Utils {
  import opened Text
  import opened Model
  import opened Json
  import opened Paths

  /** `isChildOfPath(dir, parent)`: `path.relative(parent, dir)` is neither
      empty, nor starting with "..", nor absolute. `cwd` is the process's
      working directory, against which `path.relative` resolves both paths. */
  predicate IsChildOfPath(cwd: string, dir: string, parent: string) {
    var relative := Relative(cwd, parent, dir);
    relative != "" && !StartsWith(relative, "..") && !IsAbsolute(relative)
  }

  /** `d` lies strictly below `p`: `p` is a proper prefix of `d`. */
  predicate StrictlyBelow(d: seq<string>, p: seq<string>) {
    |p| < |d| && d[..|p|] == p
  }

  /** What the test means on resolved paths: `dir` lies strictly below `parent`
      and the first name below `parent` does not begin with "..". */
  lemma IsChildOfPathIff(cwd: string, dir: string, parent: string)
    ensures
      var P, D := ResolvedPath(cwd, parent).segs, ResolvedPath(cwd, dir).segs;
      IsChildOfPath(cwd, dir, parent) <==> StrictlyBelow(D, P) && !StartsWith(D[|P|], "..")
  {
    var P, D := ResolvedPath(cwd, parent).segs, ResolvedPath(cwd, dir).segs;
    NormalSegsNames(P);
    NormalSegsNames(D);
    var k := CommonPrefixLength(P, D);
    var R := RelativeSegs(P, D);
    assert Relative(cwd, parent, dir) == JoinSegs(R);
    if k < |P| {
      assert R[0] == "..";
      JoinSegsStartsWithDots(R);
    } else {
      assert P == D[..k];
      assert R == D[k..];
      if |D| == k {
        assert R == [];
      } else {
        assert R[0] == D[k];
        assert forall i :: 0 <= i < |R| ==> R[i] != "";
        JoinSegsStartsWithDots(R);
        JoinSegsFirstChar(R);
        assert '/' !in R[0];
        assert R[0][0] in R[0];
      }
    }
  }

  /** A directory is never its own child. */
  lemma NotChildOfItself(cwd: string, dir: string)
    ensures !IsChildOfPath(cwd, dir, dir)
  {
    IsChildOfPathIff(cwd, dir, dir);
  }

  /** Nothing outside `parent`'s subtree is a child of it. */
  lemma OutsideIsNotChild(cwd: string, dir: string, parent: string)
    requires !StrictlyBelow(ResolvedPath(cwd, dir).segs, ResolvedPath(cwd, parent).segs)
    ensures !IsChildOfPath(cwd, dir, parent)
  {
    IsChildOfPathIff(cwd, dir, parent);
  }

  /** Appending a name that does not begin with ".." to an absolute normal
      path gives a child of it. */
  lemma NameIsChild(cwd: string, segs: seq<string>, name: string)
    requires NormalSegs(true, segs) && IsName(name) && !StartsWith(name, "..")
    ensures NormalSegs(true, segs + [name])
    ensures IsChildOfPath(cwd, Format(Path(true, segs + [name])), Format(Path(true, segs)))
  {
    assert NormalSegs(true, segs + [name]);
    ResolveResolved(cwd, segs);
    ResolveResolved(cwd, segs + [name]);
    IsChildOfPathIff(cwd, Format(Path(true, segs + [name])), Format(Path(true, segs)));
    assert (segs + [name])[..|segs|] == segs;
  }

  /** The quirk: a real subdirectory whose name begins with "..", such as
      "..hidden", is reported as not a child. */
  lemma DotDotNamedChildIsNotChild(cwd: string, segs: seq<string>, name: string)
    requires NormalSegs(true, segs) && IsName(name) && StartsWith(name, "..")
    ensures NormalSegs(true, segs + [name])
    ensures !IsChildOfPath(cwd, Format(Path(true, segs + [name])), Format(Path(true, segs)))
  {
    assert NormalSegs(true, segs + [name]);
    ResolveResolved(cwd, segs);
    ResolveResolved(cwd, segs + [name]);
    IsChildOfPathIff(cwd, Format(Path(true, segs + [name])), Format(Path(true, segs)));
    assert (segs + [name])[|segs|] == name;
  }

  /** `isRecord`: `typeof a === "object" && a != null`. For a JSON value
      that is an object or an array. */
  predicate IsRecord(a: Json) {
    a.JObject? || a.JArray?
  }

  /** `assertIsString`: passes a string through and throws "Data is empty"
      for anything else, null included. */
  function AssertIsString(arg: Json): (r: Outcome<string>)
    ensures r.Done? <==> arg.JString?
    ensures r.Done? ==> r.value == arg.s
    ensures r.Failed? ==> r.error == PlainError("Data is empty")
  {
    if arg.JNull? || !arg.JString? then Failed(PlainError("Data is empty")) else Done(arg.s)
  }
}
