/** The part of pathlib that finds a file name's suffix, on POSIX paths. */
module Paths {

  /** A path without its trailing separators, as pathlib normalises it. */
  function StripTrailingSeparators(p: string): (r: string)
    ensures r == [] || r[|r| - 1] != '/'
  {
    if p != [] && p[|p| - 1] == '/' then StripTrailingSeparators(p[..|p| - 1]) else p
  }

  /** Stripping removes exactly the trailing run of separators: what remains is
      a prefix of the path, and everything after it is a separator. */
  lemma {:induction false} StripTrailingSeparatorsRemovesRun(p: string)
    ensures var r := StripTrailingSeparators(p);
      |r| <= |p| && r == p[..|r|] && forall k :: |r| <= k < |p| ==> p[k] == '/'
  {
    if p != [] && p[|p| - 1] == '/' {
      var init := p[..|p| - 1];
      StripTrailingSeparatorsRemovesRun(init);
      var r := StripTrailingSeparators(init);
      assert init[..|r|] == p[..|r|];
    }
  }

  /** What follows the last separator. */
  function LastComponent(p: string): (name: string)
    ensures '/' !in name
  {
    if p == [] || p[|p| - 1] == '/' then [] else LastComponent(p[..|p| - 1]) + [p[|p| - 1]]
  }

  /** PurePath.name: the final component of a path. */
  function Name(p: string): (name: string)
    ensures '/' !in name
  {
    LastComponent(StripTrailingSeparators(p))
  }

  /** str.rfind: the position of the last c in s, or -1. */
  function RFind(s: string, c: char): (i: int)
    ensures -1 <= i < |s|
    ensures i >= 0 ==> s[i] == c
    ensures forall j :: i < j < |s| ==> s[j] != c
  {
    if s == [] then -1 else if s[|s| - 1] == c then |s| - 1 else RFind(s[..|s| - 1], c)
  }

  /** The suffix of a final component: from its last dot on, when that dot is
      neither its first nor its last character; otherwise "". */
  function ComponentSuffix(name: string): (r: string)
    ensures r != [] ==> |r| >= 2 && r[0] == '.' && '.' !in r[1..]
  {
    var i := RFind(name, '.');
    if 0 < i < |name| - 1 then
      assert forall j :: 0 <= j < |name| - i - 1 ==> name[i..][1..][j] == name[i + 1 + j];
      name[i..]
    else ""
  }

  /** PurePath.suffix: the suffix of the path's final component. */
  function Suffix(p: string): (r: string)
    ensures r != [] ==> '/' !in r
  {
    ComponentSuffix(Name(p))
  }

  /** str.lstrip(c): s without its leading run of c. */
  function LStrip(s: string, c: char): (r: string)
    ensures r == [] || r[0] != c
  {
    if s != [] && s[0] == c then LStrip(s[1..], c) else s
  }

  /** A nonempty suffix is a proper tail of the component. */
  lemma ComponentSuffixIsTail(name: string)
    ensures var r := ComponentSuffix(name);
      r != [] ==> |r| < |name| && name[|name| - |r|..] == r
  {
  }

  /** lstrip removes exactly the leading run of c: what remains is a suffix of
      s, and everything before it is c. */
  lemma {:induction false} LStripRemovesRun(s: string, c: char)
    ensures var r := LStrip(s, c);
      |r| <= |s| && r == s[|s| - |r|..] && forall k :: 0 <= k < |s| - |r| ==> s[k] == c
  {
    if s != [] && s[0] == c {
      LStripRemovesRun(s[1..], c);
      var r := LStrip(s[1..], c);
      assert s[1..][|s| - 1 - |r|..] == s[|s| - |r|..];
      forall k | 0 <= k < |s| - |r| ensures s[k] == c {
        if k > 0 { assert s[k] == s[1..][k - 1]; }
      }
    }
  }

  lemma {:induction false} LastComponentOfJoin(dir: string, name: string)
    requires dir == [] || dir[|dir| - 1] == '/'
    requires '/' !in name
    ensures LastComponent(dir + name) == name
  {
    if name == [] {
      assert dir + name == dir;
    } else {
      var init := name[..|name| - 1];
      assert (dir + name)[..|dir + name| - 1] == dir + init;
      LastComponentOfJoin(dir, init);
      assert init + [name[|name| - 1]] == name;
    }
  }

  lemma {:induction false} RFindBeforeTail(x: string, c: char, y: string)
    requires c !in y
    ensures RFind(x + [c] + y, c) == |x|
  {
    if y == [] {
      assert x + [c] + y == x + [c];
    } else {
      var init := y[..|y| - 1];
      assert (x + [c] + y)[..|x + [c] + y| - 1] == x + [c] + init;
      RFindBeforeTail(x, c, init);
    }
  }

  lemma {:induction false} NameOfJoin(dir: string, stem: string, ext: string)
    requires dir == [] || dir[|dir| - 1] == '/'
    requires '/' !in stem
    requires ext != [] && '/' !in ext
    ensures Name(dir + stem + "." + ext) == stem + "." + ext
  {
    var name := stem + "." + ext;
    assert '/' !in name by {
      forall j | 0 <= j < |name| ensures name[j] != '/' {
        if j < |stem| { assert name[j] == stem[j]; }
        else if j > |stem| { assert name[j] == ext[j - |stem| - 1]; }
      }
    }
    var p := dir + name;
    assert p == dir + stem + "." + ext;
    assert p[|p| - 1] == ext[|ext| - 1];
    assert StripTrailingSeparators(p) == p;
    LastComponentOfJoin(dir, name);
  }

  lemma {:induction false} ComponentSuffixOfJoin(stem: string, ext: string)
    requires stem != []
    requires ext != [] && '.' !in ext
    ensures ComponentSuffix(stem + "." + ext) == "." + ext
  {
    var name := stem + "." + ext;
    assert name == stem + ['.'] + ext;
    RFindBeforeTail(stem, '.', ext);
    assert name[|stem|..] == "." + ext;
  }

  /** Joining a directory, a stem and an extension gives back that extension
      as the suffix. */
  lemma {:induction false} SuffixOfJoin(dir: string, stem: string, ext: string)
    requires dir == [] || dir[|dir| - 1] == '/'
    requires stem != [] && '/' !in stem
    requires ext != [] && '/' !in ext && '.' !in ext
    ensures Suffix(dir + stem + "." + ext) == "." + ext
    ensures LStrip(Suffix(dir + stem + "." + ext), '.') == ext
  {
    NameOfJoin(dir, stem, ext);
    ComponentSuffixOfJoin(stem, ext);
    assert ("." + ext)[1..] == ext;
    assert LStrip(ext, '.') == ext;
  }
}
