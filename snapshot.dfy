/**
  The process snapshot of one tick: how each raw record is normalised and how
  child memory is rolled up into application bundles (lib/engine.js, check).

  The snapshot is an array of records rewritten in place, as the source rewrites
  the objects of its list.
*/
module Snapshot {
  import opened Wrappers

  /**
    One process record. Before normalisation `path` is the directory of the
    executable and `mem` is whatever the enumerator put there; `memRss` is the
    resident size in kilobytes.
  */
  datatype Proc = Proc(pid: int, parentPid: int, name: string, path: string, memRss: int, mem: int)

  const BundleMarker: string := ".app/Contents"

  // ---------------------------------------------------------------------------
  // Paths

  /**
    Joining a directory and a file name with a single separator; joining two
    empty parts gives the current directory ".".
  */
  function JoinPath(dir: string, name: string): string
  {
    if dir == "" && name == "" then "."
    else if dir == "" then name
    else if name == "" then dir
    else if dir[|dir| - 1] == '/' then dir + name
    else dir + "/" + name
  }

  /**
    The joined path starts with the directory and ends with the name; when both
    are given, exactly one '/' stands between them.
  */
  lemma JoinPathShape(dir: string, name: string)
    ensures var r := JoinPath(dir, name);
      && |r| >= |dir| && r[..|dir|] == dir
      && |r| >= |name| && r[|r| - |name|..] == name
      && (dir != "" && name != "" ==> |r| > |name| && r[|r| - |name| - 1] == '/')
      && (dir != "" && name != "" ==> (|r| == |dir| + |name| + 1 <==> dir[|dir| - 1] != '/'))
  {
  }

  // ---------------------------------------------------------------------------
  // The bundle-name pattern `\/([^\/]+?)\.app\/Contents` (unanchored, first match)

  /**
    The pattern matches at the '/' at index k with a capture group `path[k+1..m]`:
    a non-empty run without '/' followed by the marker `.app/Contents`.
  */
  ghost predicate StemMatch(path: string, k: int, m: int)
  {
    && 0 <= k && k + 1 < m && m + |BundleMarker| <= |path|
    && path[k] == '/'
    && (forall i :: k < i < m ==> path[i] != '/')
    && path[m..m + |BundleMarker|] == BundleMarker
  }

  /** Index of the first '/' at or after j, or |path| when there is none. */
  function NextSlash(path: string, j: nat): (e: nat)
    requires j <= |path|
    ensures j <= e <= |path|
    ensures e < |path| ==> path[e] == '/'
    ensures forall i :: j <= i < e ==> path[i] != '/'
    decreases |path| - j
  {
    if j == |path| || path[j] == '/' then j else NextSlash(path, j + 1)
  }

  /** The capture of a match starting at index k, if the pattern matches there. */
  function StemAt(path: string, k: nat): Option<string>
    requires k < |path|
  {
    if path[k] != '/' then None
    else
      var e := NextSlash(path, k + 1);
      if k + 6 <= e && e + 9 <= |path| && MarkerAt(path, e - 4)
      then Some(path[k + 1..e - 4])
      else None
  }

  /** Leftmost match at or after index k. */
  function FirstStem(path: string, k: nat): Option<string>
    requires k <= |path|
    decreases |path| - k
  {
    if k == |path| then None
    else if StemAt(path, k).Some? then StemAt(path, k)
    else FirstStem(path, k + 1)
  }

  /** The application name captured from a bundle path, if the pattern matches. */
  function BundleStem(path: string): Option<string>
  {
    FirstStem(path, 0)
  }

  lemma StemAtIsMatch(path: string, k: nat)
    requires k < |path|
    ensures StemAt(path, k).Some? ==>
      var m := NextSlash(path, k + 1) - 4;
      StemMatch(path, k, m) && StemAt(path, k).value == path[k + 1..m]
    ensures forall m :: StemMatch(path, k, m) ==> StemAt(path, k) == Some(path[k + 1..m])
  {
    forall m | StemMatch(path, k, m)
      ensures StemAt(path, k) == Some(path[k + 1..m])
    {
      assert path[m + 4] == path[m..m + |BundleMarker|][4] == '/';
      forall i | m <= i < m + 4
        ensures path[i] != '/'
      {
        assert path[i] == path[m..m + |BundleMarker|][i - m];
      }
      var e := NextSlash(path, k + 1);
      assert e == m + 4;
    }
  }

  lemma {:induction false} FirstStemIsLeftmost(path: string, k: nat)
    requires k <= |path|
    ensures FirstStem(path, k).None? ==> forall k', m :: k <= k' ==> !StemMatch(path, k', m)
    ensures FirstStem(path, k).Some? ==>
      exists k', m :: k <= k' && StemMatch(path, k', m) && FirstStem(path, k).value == path[k' + 1..m]
        && forall k'', m'' :: k <= k'' && StemMatch(path, k'', m'') ==> k' <= k''
    decreases |path| - k
  {
    if k < |path| {
      StemAtIsMatch(path, k);
      if StemAt(path, k).None? {
        FirstStemIsLeftmost(path, k + 1);
        if FirstStem(path, k).Some? {
          var k', m :| k + 1 <= k' && StemMatch(path, k', m) && FirstStem(path, k).value == path[k' + 1..m]
            && forall k'', m'' :: k + 1 <= k'' && StemMatch(path, k'', m'') ==> k' <= k'';
          assert forall k'', m'' :: k <= k'' && StemMatch(path, k'', m'') ==> k' <= k'';
        }
      } else {
        var m := NextSlash(path, k + 1) - 4;
        assert StemMatch(path, k, m);
      }
    }
  }

  /**
    BundleStem returns the capture of the leftmost match of the pattern, and
    nothing when the pattern does not match.
  */
  lemma BundleStemIsLeftmostMatch(path: string)
    ensures BundleStem(path).None? ==> forall k, m :: !StemMatch(path, k, m)
    ensures BundleStem(path).Some? ==>
      exists k, m :: StemMatch(path, k, m) && BundleStem(path).value == path[k + 1..m]
        && forall k', m' :: StemMatch(path, k', m') ==> k <= k'
  {
    FirstStemIsLeftmost(path, 0);
  }

  /** A captured name is never empty and holds no '/'. */
  lemma BundleStemIsComponent(path: string)
    ensures BundleStem(path).Some? ==>
      var name := BundleStem(path).value;
      name != "" && forall i :: 0 <= i < |name| ==> name[i] != '/'
  {
    BundleStemIsLeftmostMatch(path);
    if BundleStem(path).Some? {
      var k, m :| StemMatch(path, k, m) && BundleStem(path).value == path[k + 1..m]
        && forall k', m' :: StemMatch(path, k', m') ==> k <= k';
      var name := BundleStem(path).value;
      forall i | 0 <= i < |name|
        ensures name[i] != '/'
      {
        assert name[i] == path[k + 1 + i];
      }
    }
  }

  // ---------------------------------------------------------------------------
  // The rollup pattern `^(.+\.app\/Contents).+$`

  /** The characters that JavaScript's `.` refuses to match. */
  predicate IsLineTerminator(c: char)
  {
    c == '\n' || c == '\r' || c == '\U{2028}' || c == '\U{2029}'
  }

  /**
    The whole path matches `^(.+\.app\/Contents).+$`: the marker occurs with at
    least one character before and one after it, and no character is a line
    terminator.
  */
  predicate IsBundleRoot(path: string)
  {
    && (forall i :: 0 <= i < |path| ==> !IsLineTerminator(path[i]))
    && exists m :: 1 <= m < |path| - |BundleMarker| && MarkerAt(path, m)
  }

  predicate MarkerAt(path: string, m: nat)
    requires m + |BundleMarker| <= |path|
  {
    path[m..m + |BundleMarker|] == BundleMarker
  }

  // ---------------------------------------------------------------------------
  // Normalisation

  /** A record after normalisation. */
  function Normalized(p: Proc): (r: Proc)
    ensures r.pid == p.pid && r.parentPid == p.parentPid && r.memRss == p.memRss
    ensures r.mem == p.memRss * 1024
    ensures r.path == JoinPath(p.path, p.name)
  {
    var path := JoinPath(p.path, p.name);
    var name := match BundleStem(path) case Some(stem) => stem case None => p.name;
    p.(mem := p.memRss * 1024, path := path, name := name)
  }

  /**
    A record inside an application bundle takes the bundle's name, a non-empty
    name without '/'; any other record keeps its own name.
  */
  lemma NormalizedName(p: Proc)
    ensures var r := Normalized(p);
      && (BundleStem(r.path).None? ==> r.name == p.name)
      && (BundleStem(r.path).Some? ==>
            r.name == BundleStem(r.path).value && r.name != "" && forall i :: 0 <= i < |r.name| ==> r.name[i] != '/')
  {
    BundleStemIsComponent(JoinPath(p.path, p.name));
  }

  function NormalizedAll(s: seq<Proc>): (r: seq<Proc>)
  {
    seq(|s|, i requires 0 <= i < |s| => Normalized(s[i]))
  }

  /** The first pass of a tick: every record is normalised in place. */
  method Normalize(procs: array<Proc>)
    modifies procs
    ensures procs[..] == NormalizedAll(old(procs[..]))
  {
    ghost var s0 := procs[..];
    for i := 0 to procs.Length
      invariant forall k :: 0 <= k < i ==> procs[k] == Normalized(s0[k])
      invariant forall k :: i <= k < procs.Length ==> procs[k] == s0[k]
    {
      procs[i] := Normalized(procs[i]);
    }
    assert forall k :: 0 <= k < procs.Length ==> procs[..][k] == NormalizedAll(s0)[k];
  }

  // ---------------------------------------------------------------------------
  // Rollup

  /**
    The memory the record at index i holds after the inner loop has visited
    entries 0..j-1, where s is the list as it stood when the outer loop reached i.
    Visiting the record itself (a process that is its own parent) adds the
    amount accumulated so far.
  */
  function ChildSum(s: seq<Proc>, i: nat, j: nat): int
    requires i < |s| && j <= |s|
    decreases j
  {
    if j == 0 then s[i].mem
    else
      var acc := ChildSum(s, i, j - 1);
      if s[j - 1].parentPid == s[i].pid then acc + (if j - 1 == i then acc else s[j - 1].mem) else acc
  }

  /** One iteration of the outer rollup loop, at index i. */
  function RollupStep(s: seq<Proc>, i: nat): (r: seq<Proc>)
    requires i < |s|
  {
    if IsBundleRoot(s[i].path) then s[i := s[i].(mem := ChildSum(s, i, |s|))] else s
  }

  /** The list after the outer rollup loop has processed indices 0..k-1. */
  function RollupUpTo(s: seq<Proc>, k: nat): (r: seq<Proc>)
    requires k <= |s|
    ensures |r| == |s|
    decreases k
  {
    if k == 0 then s else RollupStep(RollupUpTo(s, k - 1), k - 1)
  }

  /**
    The rollup changes nothing but memory totals, and only those of bundle
    roots the outer loop has already reached.
  */
  lemma {:induction false} RollupUpToFrame(s: seq<Proc>, k: nat)
    requires k <= |s|
    ensures var r := RollupUpTo(s, k);
      && (forall i :: 0 <= i < |s| ==> r[i] == s[i].(mem := r[i].mem))
      && (forall i :: k <= i < |s| ==> r[i] == s[i])
      && (forall i :: 0 <= i < k && !IsBundleRoot(s[i].path) ==> r[i] == s[i])
    decreases k
  {
    if k > 0 {
      RollupUpToFrame(s, k - 1);
    }
  }

  /** The list after the whole rollup. */
  function Rolled(s: seq<Proc>): seq<Proc>
  {
    RollupUpTo(s, |s|)
  }

  /** The second pass of a tick: child memory is added into bundle roots, in place. */
  method Rollup(procs: array<Proc>)
    modifies procs
    ensures procs[..] == Rolled(old(procs[..]))
  {
    ghost var s0 := procs[..];
    var i := 0;
    while i < procs.Length
      invariant 0 <= i <= procs.Length
      invariant procs[..] == RollupUpTo(s0, i)
    {
      if IsBundleRoot(procs[i].path) {
        ghost var s := procs[..];
        var j := 0;
        while j < procs.Length
          invariant 0 <= j <= procs.Length
          invariant procs[..] == s[i := s[i].(mem := ChildSum(s, i, j))]
        {
          if procs[j].parentPid == procs[i].pid {
            procs[i] := procs[i].(mem := procs[i].mem + procs[j].mem);
          }
          j := j + 1;
        }
      }
      i := i + 1;
    }
  }

  lemma {:induction false} RollupSettled(s: seq<Proc>, i: nat, k: nat)
    requires i < k <= |s|
    ensures RollupUpTo(s, k)[i] == RollupUpTo(s, i + 1)[i]
    decreases k
  {
    if k > i + 1 {
      RollupSettled(s, i, k - 1);
      var t := RollupUpTo(s, k - 1);
      assert RollupUpTo(s, k) == RollupStep(t, k - 1);
      assert RollupStep(t, k - 1)[i] == t[i];
    }
  }

  /**
    A bundle root ends the rollup holding its memory plus what its children held
    at the moment the outer loop reached it; nothing later touches it again.
  */
  lemma RollupFinalMem(s: seq<Proc>, i: nat)
    requires i < |s| && IsBundleRoot(s[i].path)
    ensures Rolled(s)[i].mem == ChildSum(RollupUpTo(s, i), i, |s|)
  {
    RollupUpToFrame(s, i);
    RollupSettled(s, i, |s|);
  }

  /** Total memory of the records among the first n of s whose parent is pid. */
  function ChildMem(s: seq<Proc>, pid: int, n: nat): int
    requires n <= |s|
  {
    if n == 0 then 0 else ChildMem(s, pid, n - 1) + (if s[n - 1].parentPid == pid then s[n - 1].mem else 0)
  }

  lemma {:induction false} ChildSumOfUntouched(s: seq<Proc>, t: seq<Proc>, i: nat, n: nat)
    requires |t| == |s| && i < |s| && n <= |s|
    requires t[i] == s[i] && s[i].parentPid != s[i].pid
    requires forall j :: 0 <= j < |s| ==> t[j].parentPid == s[j].parentPid
    requires forall j :: 0 <= j < |s| && s[j].parentPid == s[i].pid ==> t[j] == s[j]
    ensures ChildSum(t, i, n) == s[i].mem + ChildMem(s, s[i].pid, n)
    decreases n
  {
    if n > 0 {
      ChildSumOfUntouched(s, t, i, n - 1);
    }
  }

  /**
    The rollup is one level deep for a root none of whose children is a bundle
    root listed before it (and which is not its own parent): it ends with its
    own memory plus its direct children's normalised memory.
  */
  lemma RollupOneLevel(s: seq<Proc>, i: nat)
    requires i < |s| && IsBundleRoot(s[i].path)
    requires s[i].parentPid != s[i].pid
    requires forall j :: 0 <= j < i && s[j].parentPid == s[i].pid ==> !IsBundleRoot(s[j].path)
    ensures Rolled(s)[i].mem == s[i].mem + ChildMem(s, s[i].pid, |s|)
  {
    RollupFinalMem(s, i);
    var t := RollupUpTo(s, i);
    RollupUpToFrame(s, i);
    ChildSumOfUntouched(s, t, i, |s|);
  }

  /**
    A path made of a non-empty prefix, the marker and a non-empty suffix, none
    holding a line terminator, is a bundle root.
  */
  lemma MarkedPathIsRoot(prefix: string, suffix: string)
    requires prefix != "" && suffix != ""
    requires forall i :: 0 <= i < |prefix| ==> !IsLineTerminator(prefix[i])
    requires forall i :: 0 <= i < |suffix| ==> !IsLineTerminator(suffix[i])
    ensures IsBundleRoot(prefix + BundleMarker + suffix)
  {
    var path := prefix + BundleMarker + suffix;
    assert MarkerAt(path, |prefix|) by {
      assert path[|prefix|..|prefix| + |BundleMarker|] == BundleMarker;
    }
    forall i | 0 <= i < |path|
      ensures !IsLineTerminator(path[i])
    {
      if i < |prefix| {
        assert path[i] == prefix[i];
      } else if i < |prefix| + |BundleMarker| {
        assert path[i] == BundleMarker[i - |prefix|];
      } else {
        assert path[i] == suffix[i - |prefix| - |BundleMarker|];
      }
    }
  }

  /**
    When a child that is itself a bundle root is listed before its parent root,
    the grandchild's memory reaches the grandparent: the rollup is not one level
    deep in general.
  */
  lemma RollupReachesGrandchild()
    ensures
      var s := [ Proc(2, 1, "C", "/C" + BundleMarker + "/C", 0, 10)
               , Proc(1, 0, "P", "/P" + BundleMarker + "/P", 0, 100)
               , Proc(3, 2, "g", "/g", 0, 1) ];
      Rolled(s)[1].mem == 111
  {
    var s := [ Proc(2, 1, "C", "/C" + BundleMarker + "/C", 0, 10)
             , Proc(1, 0, "P", "/P" + BundleMarker + "/P", 0, 100)
             , Proc(3, 2, "g", "/g", 0, 1) ];
    MarkedPathIsRoot("/C", "/C");
    MarkedPathIsRoot("/P", "/P");
    assert ChildSum(s, 0, 3) == 11 by {
      assert ChildSum(s, 0, 1) == 10;
      assert ChildSum(s, 0, 2) == 10;
    }
    var t1 := RollupUpTo(s, 1);
    assert t1 == s[0 := s[0].(mem := 11)];
    assert ChildSum(t1, 1, 3) == 111 by {
      assert ChildSum(t1, 1, 1) == 111;
      assert ChildSum(t1, 1, 2) == 111;
    }
    var t2 := RollupUpTo(s, 2);
    assert t2[1].mem == 111;
    RollupSettled(s, 1, 3);
  }

  /** A helper executable inside the Chrome bundle: its joined path around the marker. */
  lemma ChromeHelperPath()
    ensures JoinPath("/Apps/Chrome" + BundleMarker + "/MacOS", "Chrome Helper")
         == "/Apps/Chrome" + BundleMarker + ("/MacOS" + "/" + "Chrome Helper")
  {
    var dir := "/Apps/Chrome" + BundleMarker + "/MacOS";
    assert dir[|dir| - 1] == 'S';
    assert JoinPath(dir, "Chrome Helper") == dir + "/" + "Chrome Helper";
    SplitAfterMarker("/Apps/Chrome", "/MacOS", "/", "Chrome Helper");
  }

  /** Regrouping a concatenation around the marker. */
  lemma SplitAfterMarker(a: string, b: string, c: string, d: string)
    ensures (a + BundleMarker + b) + c + d == a + BundleMarker + (b + c + d)
  {
  }

  /** That helper is renamed to the bundle's stem, "Chrome", the leftmost match. */
  lemma ChromeHelperStem()
    ensures BundleStem(JoinPath("/Apps/Chrome" + BundleMarker + "/MacOS", "Chrome Helper")) == Some("Chrome")
  {
    ChromeHelperPath();
    var pre, post := "/Apps/Chrome", "/MacOS" + "/" + "Chrome Helper";
    var path := pre + BundleMarker + post;
    assert path[12..25] == BundleMarker by {
      assert path[|pre|..|pre| + |BundleMarker|] == BundleMarker;
    }
    assert path[..12] == pre;
    assert path[5] == '/' && path[16] == '/';
    assert forall i :: 1 <= i < 5 ==> path[i] != '/';
    assert forall i :: 6 <= i < 16 ==> path[i] != '/';
    assert NextSlash(path, 1) == 5;
    assert StemAt(path, 0).None?;
    assert NextSlash(path, 6) == 16;
    assert StemAt(path, 5) == Some("Chrome");
    assert FirstStem(path, 4) == FirstStem(path, 5) by { assert path[4] != '/'; }
    assert FirstStem(path, 3) == FirstStem(path, 4) by { assert path[3] != '/'; }
    assert FirstStem(path, 2) == FirstStem(path, 3) by { assert path[2] != '/'; }
    assert FirstStem(path, 1) == FirstStem(path, 2) by { assert path[1] != '/'; }
  }

  /** Normalising the helper's record renames it and converts KiB to bytes. */
  lemma ChromeHelperNormalized()
    ensures
      var p := Normalized(Proc(500, 1, "Chrome Helper", "/Apps/Chrome" + BundleMarker + "/MacOS", 1171875, 0));
      p.pid == 500 && p.parentPid == 1 && p.name == "Chrome" && p.mem == 1200000000
  {
    ChromeHelperStem();
    NormalizedName(Proc(500, 1, "Chrome Helper", "/Apps/Chrome" + BundleMarker + "/MacOS", 1171875, 0));
  }

  /** A snapshot of one record that is not its own parent is left as it is by the rollup. */
  lemma RolledSingleton(p: Proc)
    requires p.parentPid != p.pid
    ensures Rolled([p]) == [p]
  {
    assert ChildSum([p], 0, 1) == p.mem;
  }

}
