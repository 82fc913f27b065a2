/** POSIX `os.path` operations on strings: basename, dirname, splitext and join. */
module Paths {
  import opened Wrappers
  import opened Text

  predicate AllSlashes(s: string) {
    forall i :: 0 <= i < |s| ==> s[i] == '/'
  }

  /** The index just after the last '/', or 0. */
  function BaseStart(p: string): (i: nat)
    ensures i <= |p| && '/' !in p[i..]
    ensures i > 0 ==> p[i - 1] == '/'
  {
    match LastIndexOf(p, '/')
    case None => 0
    case Some(k) => k + 1
  }

  /** `os.path.basename(p)`. */
  function Basename(p: string): (r: string)
    ensures '/' !in r
    ensures '/' !in p ==> r == p
  {
    p[BaseStart(p)..]
  }

  /** `s.rstrip('/')`. */
  function TrimRightSlashes(s: string): (r: string)
    ensures |r| <= |s| && r == s[..|r|]
    ensures r == [] || r[|r| - 1] != '/'
    ensures forall i :: |r| <= i < |s| ==> s[i] == '/'
  {
    if s != [] && s[|s| - 1] == '/' then TrimRightSlashes(s[..|s| - 1]) else s
  }

  /** `os.path.dirname(p)`: the head up to the last '/', trailing slashes removed unless it is all slashes. */
  function Dirname(p: string): (r: string)
    ensures r == [] || r[|r| - 1] != '/' || AllSlashes(r)
    ensures '/' !in p ==> r == []
  {
    var head := p[..BaseStart(p)];
    if head != [] && !AllSlashes(head) then TrimRightSlashes(head) else head
  }

  /** `os.path.splitext(p)[0]`: `p` without its last extension; leading dots of the file name do not start one. */
  function StripExtension(p: string): string {
    var start := BaseStart(p);
    match LastIndexOf(p, '.')
    case None => p
    case Some(d) =>
      if start <= d && exists k :: start <= k < d && p[k] != '.' then p[..d] else p
  }

  /**
    A bare file name that does not start with a dot loses exactly its last extension; dots
    inside the stem ('V0.6') stay.
  */
  lemma StripExtensionOf(stem: string, ext: string)
    requires stem != [] && stem[0] != '.' && '/' !in stem && '.' !in ext && '/' !in ext
    ensures StripExtension(stem + "." + ext) == stem
  {
    var p := stem + "." + ext;
    assert p[|stem|] == '.';
    var d := LastIndexOf(p, '.').value;
    assert d == |stem|;
    assert BaseStart(p) == 0;
    assert p[0] == stem[0] != '.';
    assert p[..d] == stem;
  }

  /** `os.path.join(a, b)`. */
  function PathJoin(a: string, b: string): string {
    if StartsWith(b, "/") then b
    else if a == [] || a[|a| - 1] == '/' then a + b
    else a + "/" + b
  }

  /** `os.path.join` of several parts, left to right. */
  function PathJoinAll(a: string, parts: seq<string>): string
    decreases |parts|
  {
    if parts == [] then a else PathJoinAll(PathJoin(a, parts[0]), parts[1..])
  }

  lemma {:induction false} LastIndexOfAppend(s: string, n: string, c: char)
    requires c !in n
    ensures LastIndexOf(s + n, c) == LastIndexOf(s, c)
    decreases |n|
  {
    if n != [] {
      assert (s + n)[..|s + n| - 1] == s + n[..|n| - 1];
      LastIndexOfAppend(s, n[..|n| - 1], c);
    } else {
      assert s + n == s;
    }
  }

  /**
    Joining a file name (no '/') onto the directory of `p` gives a path whose
    directory is that of `p` and whose base name is the file name.
  */
  lemma JoinOntoDirname(p: string, name: string)
    requires name != [] && '/' !in name
    ensures Dirname(PathJoin(Dirname(p), name)) == Dirname(p)
    ensures Basename(PathJoin(Dirname(p), name)) == name
  {
    var d := Dirname(p);
    var q := PathJoin(d, name);
    assert !StartsWith(name, "/") by { assert name[0] != '/'; }
    if d == [] {
      assert q == name;
    } else if d[|d| - 1] == '/' {
      assert q == d + name;
      LastIndexOfAppend(d, name, '/');
      assert LastIndexOf(d, '/') == Some(|d| - 1);
      assert BaseStart(q) == |d|;
      assert q[..|d|] == d;
      assert q[|d|..] == name;
    } else {
      assert q == (d + "/") + name;
      LastIndexOfAppend(d + "/", name, '/');
      assert LastIndexOf(d + "/", '/') == Some(|d|);
      assert BaseStart(q) == |d| + 1;
      var head := q[..|d| + 1];
      assert head == d + "/";
      assert !AllSlashes(head) by { assert head[|d| - 1] != '/'; }
      assert head[..|head| - 1] == d;
      assert TrimRightSlashes(head) == TrimRightSlashes(d);
      assert q[|d| + 1..] == name;
    }
  }

  /** A file name (no '/') joined onto any directory is the base name of the result. */
  lemma BasenameOfJoin(a: string, name: string)
    requires name != [] && '/' !in name
    ensures Basename(PathJoin(a, name)) == name
  {
    var q := PathJoin(a, name);
    assert !StartsWith(name, "/") by { assert name[0] != '/'; }
    if a == [] {
      assert q == name;
    } else {
      var d := if a[|a| - 1] == '/' then a else a + "/";
      assert q == d + name;
      LastIndexOfAppend(d, name, '/');
      assert LastIndexOf(d, '/') == Some(|d| - 1);
      assert q[|d|..] == name;
    }
  }

  /** Joining one more part onto a multi-part join. */
  lemma {:induction false} PathJoinAllSnoc(a: string, parts: seq<string>, p: string)
    ensures PathJoinAll(a, parts + [p]) == PathJoin(PathJoinAll(a, parts), p)
    decreases |parts|
  {
    if parts == [] {
      assert ([] + [p])[1..] == [];
    } else {
      assert (parts + [p])[1..] == parts[1..] + [p];
      PathJoinAllSnoc(PathJoin(a, parts[0]), parts[1..], p);
    }
  }
}
