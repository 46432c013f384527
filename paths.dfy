/** The parts of Node's `path` module the bundler relies on. */
module Paths {

  /** `path.join(dir, name)`; the model joins with one separator and does not normalise. */
  function Join(dir: string, name: string): string
  {
    dir + "/" + name
  }

  /** Different names in one directory never share a path. */
  lemma JoinInjective(dir: string, a: string, b: string)
    requires Join(dir, a) == Join(dir, b)
    ensures a == b
  {
    assert a == Join(dir, a)[|dir| + 1..];
    assert b == Join(dir, b)[|dir| + 1..];
  }

  predicate StartsWith(s: string, prefix: string)
  {
    |prefix| <= |s| && s[..|prefix|] == prefix
  }

  /** The index of the last `c` in `s`, or -1 when there is none. */
  function LastIndexOf(s: string, c: char): int
  {
    if |s| == 0 then -1
    else if s[|s| - 1] == c then |s| - 1
    else LastIndexOf(s[..|s| - 1], c)
  }

  /** `LastIndexOf` finds a `c` inside `s`, and no `c` comes after it. */
  lemma {:induction false} LastIndexOfSpec(s: string, c: char)
    ensures var k := LastIndexOf(s, c);
      && -1 <= k < |s|
      && (k >= 0 ==> s[k] == c)
      && (forall j :: k < j < |s| ==> s[j] != c)
  {
    if |s| > 0 && s[|s| - 1] != c {
      var t := s[..|s| - 1];
      LastIndexOfSpec(t, c);
      forall j | LastIndexOf(s, c) < j < |s| ensures s[j] != c {
        if j < |t| {
          assert s[j] == t[j];
        }
      }
    }
  }

  /** The last component of a path. */
  function Basename(p: string): string
  {
    var k := LastIndexOf(p, '/');
    LastIndexOfSpec(p, '/');
    p[k + 1..]
  }

  /** The last component of a path holds no '/' and ends the path. */
  lemma BasenameShape(p: string)
    ensures var b := Basename(p);
      && (forall j :: 0 <= j < |b| ==> b[j] != '/')
      && |b| <= |p| && b == p[|p| - |b|..]
  {
    var k := LastIndexOf(p, '/');
    LastIndexOfSpec(p, '/');
    var b := Basename(p);
    forall j | 0 <= j < |b| ensures b[j] != '/' {
      assert b[j] == p[k + 1 + j];
    }
  }

  /**
   * `path.extname(p)`: the last component from its last '.' to its end, or the empty
   * string when that component has no '.', has its last '.' as its first character
   * (".profile"), or is "..".
   */
  function Extname(p: string): string
  {
    var b := Basename(p);
    var k := LastIndexOf(b, '.');
    LastIndexOfSpec(b, '.');
    if k <= 0 || b == ".." then "" else b[k..]
  }

  /** An extension is empty, or a '.' followed by neither '.' nor '/', ending the path. */
  lemma ExtnameShape(p: string)
    ensures var ext := Extname(p);
      && (ext == "" || (ext[0] == '.' && forall j :: 1 <= j < |ext| ==> ext[j] != '.'))
      && (forall j :: 0 <= j < |ext| ==> ext[j] != '/')
      && |ext| <= |p| && ext == p[|p| - |ext|..]
  {
    var b := Basename(p);
    BasenameShape(p);
    var k := LastIndexOf(b, '.');
    LastIndexOfSpec(b, '.');
    var ext := Extname(p);
    if k > 0 && b != ".." {
      assert ext == b[k..];
      forall j | 1 <= j < |ext| ensures ext[j] != '.' {
        assert ext[j] == b[k + j];
      }
      forall j | 0 <= j < |ext| ensures ext[j] != '/' {
        assert ext[j] == b[k + j];
      }
      assert ext == p[|p| - |ext|..];
    }
  }

  /** The only `c` at or after `d` sits at `d`: that is the last one. */
  lemma LastIndexOfIs(s: string, c: char, d: int)
    requires 0 <= d < |s| && s[d] == c
    requires forall j :: d < j < |s| ==> s[j] != c
    ensures LastIndexOf(s, c) == d
  {
    LastIndexOfSpec(s, c);
  }

  /** Appending characters other than `c` does not move the last `c`. */
  lemma {:induction false} LastIndexOfAppend(s: string, t: string, c: char)
    requires forall j :: 0 <= j < |t| ==> t[j] != c
    ensures LastIndexOf(s + t, c) == LastIndexOf(s, c)
  {
    if |t| == 0 {
      assert s + t == s;
    } else {
      var u := t[..|t| - 1];
      assert (s + t)[..|s + t| - 1] == s + u;
      assert (s + t)[|s + t| - 1] == t[|t| - 1];
      LastIndexOfAppend(s, u, c);
    }
  }

  /** Appending characters other than '/' extends the last component. */
  lemma {:induction false} BasenameAppend(stem: string, ext: string)
    requires forall j :: 0 <= j < |ext| ==> ext[j] != '/'
    ensures Basename(stem + ext) == Basename(stem) + ext
  {
    LastIndexOfAppend(stem, ext, '/');
    LastIndexOfSpec(stem, '/');
    var k := LastIndexOf(stem, '/');
    assert (stem + ext)[k + 1..] == stem[k + 1..] + ext;
  }

  /** A name made of a stem and an extension has that extension. */
  lemma {:induction false} ExtnameOf(stem: string, ext: string)
    requires stem != "" && stem[|stem| - 1] != '/'
    requires |ext| >= 2 && ext[0] == '.'
    requires forall j :: 0 <= j < |ext| ==> ext[j] != '/' && (j > 0 ==> ext[j] != '.')
    ensures Extname(stem + ext) == ext
  {
    var a := Basename(stem);
    BasenameAppend(stem, ext);
    BasenameNonEmpty(stem);
    LastDotAt(a, ext);
    ExtnameAt(stem + ext, a + ext, |a|);
    assert (a + ext)[|a|..] == ext;
  }

  /** A path that does not end in '/' has a non-empty last component. */
  lemma BasenameNonEmpty(p: string)
    requires p != "" && p[|p| - 1] != '/'
    ensures |Basename(p)| >= 1
  {
    LastIndexOfSpec(p, '/');
  }

  /** The last '.' of `a + ext` is the one that starts `ext`. */
  lemma {:induction false} LastDotAt(a: string, ext: string)
    requires ext != "" && ext[0] == '.'
    requires forall j :: 0 < j < |ext| ==> ext[j] != '.'
    ensures LastIndexOf(a + ext, '.') == |a|
  {
    var b := a + ext;
    forall j | |a| < j < |b| ensures b[j] != '.' {
      assert b[j] == ext[j - |a|];
    }
    LastIndexOfIs(b, '.', |a|);
  }

  /** Where the last component's last '.' is past its start, the extension starts there. */
  lemma ExtnameAt(p: string, b: string, d: int)
    requires b == Basename(p) && 0 < d < |b| && LastIndexOf(b, '.') == d && |b| != 2
    ensures Extname(p) == b[d..]
  {
  }
}
