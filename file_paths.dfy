/** The path helpers RXFileIO relies on: `File.basename` and `File.dirname` with
    their POSIX behaviour in Ruby, and the host extraction
    `x[/(?<=dfs:\/\/)[^\/]+/]` used by chdir. */
module FilePaths {
  import opened RubyText

  /** `s` with every trailing `/` removed. */
  function TrimTrailingSlashes(s: string): (r: string)
    ensures |r| <= |s| && r == s[..|r|]
    ensures r != [] ==> r[|r| - 1] != '/'
    ensures forall i | |r| <= i < |s| :: s[i] == '/'
    decreases |s|
  {
    if s != [] && s[|s| - 1] == '/' then TrimTrailingSlashes(s[..|s| - 1]) else s
  }

  /** The part of `s` after its last `/` (all of `s` when it has none). */
  function AfterLastSlash(s: string): (r: string)
    ensures |r| <= |s| && r == s[|s| - |r|..]
    ensures forall i | 0 <= i < |r| :: r[i] != '/'
    ensures |r| < |s| ==> s[|s| - |r| - 1] == '/'
    decreases |s|
  {
    if s == [] || s[|s| - 1] == '/' then [] else AfterLastSlash(s[..|s| - 1]) + [s[|s| - 1]]
  }

  /** `File.basename(s)`: the last path component, ignoring trailing slashes;
      `""` for `""` and `"/"` for a string of slashes only. */
  function Basename(s: string): (r: string)
    ensures r == "/" || forall i | 0 <= i < |r| :: r[i] != '/'
    ensures s != [] ==> r != []
  {
    if s == [] then []
    else
      var t := TrimTrailingSlashes(s);
      if t == [] then "/" else AfterLastSlash(t)
  }

  /** The basename of `dir/name` is `name`, for any `dir`. */
  lemma BasenameOfJoin(dir: string, name: string)
    requires name != [] && forall i | 0 <= i < |name| :: name[i] != '/'
    ensures Basename(dir + "/" + name) == name
  {
    var s := dir + "/" + name;
    assert TrimTrailingSlashes(s) == s;
    var r := AfterLastSlash(s);
    assert forall i | 0 <= i < |name| :: s[|dir| + 1 + i] == name[i];
    assert s[|dir|] == '/';
    assert |r| == |name|;
    assert r == s[|s| - |name|..] == name;
  }

  /** A name without separators is its own basename: `File.basename("*.txt") == "*.txt"`. */
  lemma BasenameOfName(name: string)
    requires name != [] && forall i | 0 <= i < |name| :: name[i] != '/'
    ensures Basename(name) == name
  {
    assert TrimTrailingSlashes(name) == name;
    var r := AfterLastSlash(name);
    assert |r| == |name|;
  }

  /** Trailing slashes do not change the basename: `File.basename("dir/name/") == "name"`. */
  lemma BasenameTrailingSlash(s: string)
    requires s != []
    ensures Basename(s + "/") == Basename(s)
  {
    var t := s + "/";
    assert t[..|t| - 1] == s;
    assert TrimTrailingSlashes(t) == TrimTrailingSlashes(s);
  }

  /** Index of the first character at or after `i` that is not `/`. */
  function SkipSlashes(s: string, i: nat): (r: nat)
    requires i <= |s|
    ensures i <= r <= |s|
    ensures forall k | i <= k < r :: s[k] == '/'
    ensures r < |s| ==> s[r] != '/'
    decreases |s| - i
  {
    if i < |s| && s[i] == '/' then SkipSlashes(s, i + 1) else i
  }

  /** A separator run ends just before `j`: `s[j - 1]` is `/` and `s[j]` is not. */
  predicate SegmentStart(s: string, j: int) {
    0 < j < |s| && s[j - 1] == '/' && s[j] != '/'
  }

  /** The last `j`, with `lo < j < hi`, at which a component follows a separator. */
  function LastSegmentStart(s: string, lo: nat, hi: nat): (r: Option<nat>)
    requires lo <= hi <= |s|
    ensures r.Some? ==> lo < r.value < hi && SegmentStart(s, r.value)
    ensures r.Some? ==> forall j | r.value < j < hi :: !SegmentStart(s, j)
    ensures r.None? ==> forall j | lo < j < hi :: !SegmentStart(s, j)
    decreases hi
  {
    if hi <= lo + 1 then None
    else if SegmentStart(s, hi - 1) then Some(hi - 1)
    else LastSegmentStart(s, lo, hi - 1)
  }

  /** Start of the run of separators that ends just before `j`. */
  function RunStart(s: string, lo: nat, j: nat): (k: nat)
    requires lo <= j <= |s|
    ensures lo <= k <= j
    ensures forall i | k <= i < j :: s[i] == '/'
    ensures k > lo ==> s[k - 1] != '/'
    decreases j
  {
    if j > lo && s[j - 1] == '/' then RunStart(s, lo, j - 1) else j
  }

  /** `File.dirname(s)` on a POSIX system: everything before the last component
      and the separators in front of it; `"."` when nothing is left; several
      leading slashes count as one. */
  function Dirname(s: string): (r: string)
    ensures r != []
  {
    var root := SkipSlashes(s, 0);
    var start := if root > 1 then root - 1 else 0;
    var p := match LastSegmentStart(s, root, |s|)
             case None => root
             case Some(j) => RunStart(s, root, j);
    if p == start then "." else s[start..p]
  }

  /** A name without separators lives in `"."`. */
  lemma DirnameOfName(name: string)
    requires forall i | 0 <= i < |name| :: name[i] != '/'
    ensures Dirname(name) == "."
  {
    assert SkipSlashes(name, 0) == 0;
  }

  /** The directory of `dir/name` is `dir`, when `dir` has no trailing slash and
      does not start with two slashes. */
  lemma DirnameOfJoin(dir: string, name: string)
    requires dir != [] && dir[|dir| - 1] != '/' && !HasPrefix(dir, "//")
    requires name != [] && forall i | 0 <= i < |name| :: name[i] != '/'
    ensures Dirname(dir + "/" + name) == dir
  {
    var s := dir + "/" + name;
    var root := SkipSlashes(s, 0);
    assert s[|dir|] == '/' && s[|dir| - 1] != '/';
    assert root < |dir|;
    var j := |dir| + 1;
    assert SegmentStart(s, j);
    forall i | j < i < |s| ensures !SegmentStart(s, i) {
      assert s[i - 1] == name[i - 1 - j];
    }
    assert LastSegmentStart(s, root, |s|) == Some(j);
    var k := RunStart(s, root, j);
    assert k == |dir|;
    assert s[0..|dir|] == dir;
  }

  /** `dfs://` ends just before `q` and `s[q]` is an allowed host character:
      where the lookbehind `(?<=dfs:\/\/)[^\/]+` can start. */
  predicate HostAt(s: string, q: int) {
    6 <= q < |s| && s[q - 6..q] == "dfs://" && s[q] != '/'
  }

  /** Length of the run of non-`/` characters starting at `q`. */
  function NonSlashRun(s: string, q: nat): (n: nat)
    requires q <= |s|
    ensures q + n <= |s|
    ensures forall i | q <= i < q + n :: s[i] != '/'
    ensures q + n < |s| ==> s[q + n] == '/'
    decreases |s| - q
  {
    if q < |s| && s[q] != '/' then 1 + NonSlashRun(s, q + 1) else 0
  }

  /** The leftmost `q' >= q` where the host pattern matches. */
  function FirstHostFrom(s: string, q: nat): (r: Option<nat>)
    requires q <= |s|
    ensures r.Some? ==> q <= r.value && HostAt(s, r.value)
    ensures r.Some? ==> forall i | q <= i < r.value :: !HostAt(s, i)
    ensures r.None? ==> forall i | q <= i <= |s| :: !HostAt(s, i)
    decreases |s| - q
  {
    if HostAt(s, q) then Some(q)
    else if q == |s| then None
    else FirstHostFrom(s, q + 1)
  }

  /** `x[/(?<=dfs:\/\/)[^\/]+/]`: the first non-empty run of non-`/` characters
      that directly follows a `dfs://` anywhere in `x`; None (Ruby's nil) if there is none. */
  function DfsHost(x: string): (r: Option<string>)
    ensures r.None? <==> forall i | 0 <= i <= |x| :: !HostAt(x, i)
    ensures r.Some? ==> r.value != [] && forall i | 0 <= i < |r.value| :: r.value[i] != '/'
    ensures r.Some? ==>
              exists q: nat | q <= |x| ::
                && HostAt(x, q)
                && (forall i | 0 <= i < q :: !HostAt(x, i))
                && r.value == x[q..q + NonSlashRun(x, q)]
  {
    match FirstHostFrom(x, 0)
    case None => None
    case Some(q) => Some(x[q..q + NonSlashRun(x, q)])
  }

  /** A run of `n` non-`/` characters at `q` that ends the string or meets a `/` is the whole run. */
  lemma {:induction false} NonSlashRunIs(s: string, q: nat, n: nat)
    requires q + n <= |s|
    requires forall i | q <= i < q + n :: s[i] != '/'
    requires q + n == |s| || s[q + n] == '/'
    ensures NonSlashRun(s, q) == n
    decreases n
  {
    if n > 0 {
      NonSlashRunIs(s, q + 1, n - 1);
    }
  }

  /** The leftmost host position from `q` on is `p` when the pattern matches at `p` and nowhere before. */
  lemma {:induction false} FirstHostIs(s: string, q: nat, p: nat)
    requires q <= p <= |s| && HostAt(s, p)
    requires forall i | q <= i < p :: !HostAt(s, i)
    ensures FirstHostFrom(s, q) == Some(p)
    decreases p - q
  {
    if q < p {
      FirstHostIs(s, q + 1, p);
    }
  }

  /** The host of a string that opens with `dfs://` followed by `n` non-`/` characters
      and then the end or a `/`. */
  lemma DfsHostAtStart(s: string, n: nat)
    requires HasPrefix(s, "dfs://") && n > 0 && 6 + n <= |s|
    requires forall i | 6 <= i < 6 + n :: s[i] != '/'
    requires 6 + n == |s| || s[6 + n] == '/'
    ensures DfsHost(s) == Some(s[6..6 + n])
  {
    assert s[0..6] == "dfs://";
    assert HostAt(s, 6);
    FirstHostIs(s, 0, 6);
    NonSlashRunIs(s, 6, n);
  }

  /** Round trip: the host of `dfs://host/...` is `host`. */
  lemma DfsHostOf(host: string, rest: string)
    requires host != [] && forall i | 0 <= i < |host| :: host[i] != '/'
    requires rest == [] || rest[0] == '/'
    ensures DfsHost("dfs://" + host + rest) == Some(host)
  {
    var s := "dfs://" + host + rest;
    assert s[..6] == "dfs://";
    assert forall i | 0 <= i < |host| :: s[6 + i] == host[i];
    assert 6 + |host| < |s| ==> s[6 + |host|] == rest[0];
    DfsHostAtStart(s, |host|);
    assert s[6..6 + |host|] == host;
  }

  /** A `dfs:///...` address (empty host) yields nil when no later `dfs://` has a host. */
  lemma DfsHostEmpty(path: string)
    requires forall i | 0 <= i < |path| :: path[i] != ':'
    ensures DfsHost("dfs://" + "/" + path) == None
  {
    var s := "dfs://" + "/" + path;
    assert s[..7] == "dfs:///";
    forall q | 0 <= q <= |s| ensures !HostAt(s, q) {
      if 6 <= q < |s| {
        if q == 6 {
          assert s[q] == '/';
        } else if q < 10 {
          assert s[q - 3] == '/' && s[q - 6..q][3] == s[q - 3];
        } else {
          assert s[q - 3] == path[q - 10] && s[q - 6..q][3] == s[q - 3];
        }
      }
    }
  }
}
