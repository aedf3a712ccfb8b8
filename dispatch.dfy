/** The stateless dispatch rules of RXFileIO: cp, ls, mkdir, write, ru, ru_r
    and writeable?. Each decides from the argument's text, and sometimes from
    one existence probe, which backend receives the call. */
module Dispatch {
  import opened RubyText
  import opened FilePaths
  import opened Routes

  /** The scheme token of a string, as `case s[/^\w+(?=:\/\/)/]` sees it. */
  predicate TokenIs(s: string, t: string) {
    SchemeToken(s) == Some(t)
  }

  /** `RXFileIO.cp(s1, s2)`: the first of s1, s2 that has a `word://` line picks the
      backend (dfs or ftp; any other scheme does nothing); with none, the copy is local.
      The grep pattern `^\w+:\/\/` matches exactly where the scheme token exists. */
  function Cp(s1: string, s2: string): (r: Route)
    ensures r.Call? ==> r.op == CopyFile(s1, s2)
    ensures r == Call(Local, CopyFile(s1, s2)) <==> SchemeToken(s1).None? && SchemeToken(s2).None?
    ensures r == Call(Dfs, CopyFile(s1, s2)) <==> TokenIs(FirstWithScheme(s1, s2), "dfs")
    ensures r == Call(Ftp, CopyFile(s1, s2)) <==> TokenIs(FirstWithScheme(s1, s2), "ftp")
    ensures r == NoOp <==>
              var first := FirstWithScheme(s1, s2);
              SchemeToken(first).Some? && !TokenIs(first, "dfs") && !TokenIs(first, "ftp")
  {
    var found := GrepScheme([s1, s2]);
    assert [s1, s2][0] == s1 && [s1, s2][1] == s2;
    if found != [] then
      match SchemeToken(found[0])
      case Some("dfs") => Call(Dfs, CopyFile(s1, s2))
      case Some("ftp") => Call(Ftp, CopyFile(s1, s2))
      case _ => NoOp
    else
      Call(Local, CopyFile(s1, s2))
  }

  /** `list.grep(/^\w+:\/\//)`: the elements that have a `word://` line, in their order. */
  function GrepScheme(xs: seq<string>): (f: seq<string>)
    ensures |f| <= |xs|
    ensures forall i | 0 <= i < |f| :: f[i] in xs && SchemeToken(f[i]).Some?
    ensures forall i | 0 <= i < |xs| :: SchemeToken(xs[i]).Some? ==> xs[i] in f
  {
    if xs == [] then []
    else
      var rest := GrepScheme(xs[1..]);
      assert forall i | 1 <= i < |xs| :: xs[i] == xs[1..][i - 1];
      if SchemeToken(xs[0]).Some? then [xs[0]] + rest else rest
  }

  /** grep keeps the order: its first element is the first element with a scheme. */
  lemma {:induction false} GrepSchemeFirst(xs: seq<string>, i: nat)
    requires i < |xs| && SchemeToken(xs[i]).Some?
    requires forall j | 0 <= j < i :: SchemeToken(xs[j]).None?
    ensures GrepScheme(xs) != [] && GrepScheme(xs)[0] == xs[i]
  {
    if i > 0 {
      assert xs[1..][i - 1] == xs[i];
      GrepSchemeFirst(xs[1..], i - 1);
    }
  }

  /** `found.first` in cp: s1 if it has a scheme, else s2. */
  function FirstWithScheme(s1: string, s2: string): (r: string)
    ensures GrepScheme([s1, s2]) != [] ==> r == GrepScheme([s1, s2])[0]
    ensures r == s1 || r == s2
  {
    if SchemeToken(s1).Some? then s1 else s2
  }

  /** cp's backend depends on s2 only when s1 has no scheme. */
  lemma CpFirstSchemeWins(s1: string, s2: string, s3: string)
    requires SchemeToken(s1).Some?
    ensures BackendOf(Cp(s1, s2)) == BackendOf(Cp(s1, s3))
  {
  }

  /** When at most one side has a scheme, swapping the operands keeps the backend. */
  lemma CpOneSided(s1: string, s2: string)
    requires SchemeToken(s1).None? || SchemeToken(s2).None?
    ensures BackendOf(Cp(s1, s2)) == BackendOf(Cp(s2, s1))
  {
  }

  /** `RXFileIO.ls(x)`: a glob whose directory exists locally is expanded by Dir[];
      otherwise the scheme token picks Dir[] (file), DfsFile (dfs) or FTP (ftp), and
      anything else returns nil. */
  function Ls(x: string, env: Env): (r: Route)
    ensures r.Call? ==> r.op == ListGlob(x)
    ensures env.localExists(Dirname(x)) ==> r == Call(Local, ListGlob(x))
    ensures r == Call(Local, ListGlob(x)) <==> env.localExists(Dirname(x)) || TokenIs(x, "file")
    ensures r == Call(Dfs, ListGlob(x)) <==> !env.localExists(Dirname(x)) && TokenIs(x, "dfs")
    ensures r == Call(Ftp, ListGlob(x)) <==> !env.localExists(Dirname(x)) && TokenIs(x, "ftp")
  {
    if env.localExists(Dirname(x)) then Call(Local, ListGlob(x))
    else
      match SchemeToken(x)
      case Some("file") => Call(Local, ListGlob(x))
      case Some("dfs") => Call(Dfs, ListGlob(x))
      case Some("ftp") => Call(Ftp, ListGlob(x))
      case _ => NoOp
  }

  /** `RXFileIO.mkdir(x)`: local for `file://` or an existing local parent, else DfsFile
      for `dfs://`, else nothing; FTP is never used. */
  function Mkdir(x: string, env: Env): (r: Route)
    ensures r.Call? ==> r.op == MakeDir(x) && r.backend != Ftp
    ensures r == Call(Local, MakeDir(x)) <==> AnchoredMatch(x, "file://") || env.localExists(Dirname(x))
    ensures r == Call(Dfs, MakeDir(x)) <==>
              !AnchoredMatch(x, "file://") && !env.localExists(Dirname(x)) && AnchoredMatch(x, "dfs://")
  {
    if AnchoredMatch(x, "file://") || env.localExists(Dirname(x)) then Call(Local, MakeDir(x))
    else if AnchoredMatch(x, "dfs://") then Call(Dfs, MakeDir(x))
    else NoOp
  }

  /** `RXFileIO.write(location, s)`: always writes somewhere. `dfs://` goes to DfsFile,
      then `ftp://` to FTP; a location matching neither (`file://` included) goes to
      DfsFile when its directory exists on DFS and to File.write otherwise. */
  function Write(location: string, s: string, env: Env): (r: Route)
    ensures r.Call? && r.op == WriteFile(location, s)
    ensures r.backend == Dfs <==>
              AnchoredMatch(location, "dfs://")
              || (!AnchoredMatch(location, "ftp://") && env.dfsExists(Dirname(location)))
    ensures r.backend == Ftp <==> !AnchoredMatch(location, "dfs://") && AnchoredMatch(location, "ftp://")
    ensures r.backend == Local <==>
              !AnchoredMatch(location, "dfs://") && !AnchoredMatch(location, "ftp://")
              && !env.dfsExists(Dirname(location))
  {
    if AnchoredMatch(location, "dfs://") then Call(Dfs, WriteFile(location, s))
    else if AnchoredMatch(location, "ftp://") then Call(Ftp, WriteFile(location, s))
    else if env.dfsExists(Dirname(location)) then Call(Dfs, WriteFile(location, s))
    else Call(Local, WriteFile(location, s))
  }

  /** `RXFileIO.ru(path)`: DfsFile.ru for a dfs token, DirToXML (non-recursive) otherwise. */
  function Ru(path: string): (r: Route)
    ensures r.Call? && r.op == LatestIn(path, false)
    ensures r.backend == Dfs <==> TokenIs(path, "dfs")
    ensures r.backend != Ftp
  {
    match SchemeToken(path)
    case Some("dfs") => Call(Dfs, LatestIn(path, false))
    case _ => Call(Local, LatestIn(path, false))
  }

  /** `RXFileIO.ru_r(path)`: DfsFile.ru_r for a dfs token, DirToXML (recursive) otherwise. */
  function RuR(path: string): (r: Route)
    ensures r.Call? && r.op == LatestIn(path, true)
    ensures r.backend == Dfs <==> TokenIs(path, "dfs")
    ensures r.backend != Ftp
  {
    match SchemeToken(path)
    case Some("dfs") => Call(Dfs, LatestIn(path, true))
    case _ => Call(Local, LatestIn(path, true))
  }

  /** write has no `file://` branch: a one-line `file://` location takes the same DFS
      probe as a bare path, and File.write receives it with its prefix. */
  lemma WriteHasNoFileBranch(location: string, s: string, env: Env)
    requires LineCount(location) <= 1 && HasPrefix(location, "file://")
    ensures env.dfsExists(Dirname(location)) ==> Write(location, s, env) == Call(Dfs, WriteFile(location, s))
    ensures !env.dfsExists(Dirname(location)) ==> Write(location, s, env) == Call(Local, WriteFile(location, s))
  {
    assert location[0] == 'f' && location[1] == 'i';
    SingleLineAnchor(location, "dfs://");
    SingleLineAnchor(location, "ftp://");
  }

  /** The probe write makes for `file:///x` is on `File.dirname("file:///x")`, which is
      `"file:"`: the slash run after the scheme is cut with the last component. */
  lemma WriteFileUrlProbe(c: string, env: Env)
    ensures Dirname("file:///x") == "file:"
    ensures env.dfsExists("file:") ==> Write("file:///x", c, env) == Call(Dfs, WriteFile("file:///x", c))
    ensures !env.dfsExists("file:") ==> Write("file:///x", c, env) == Call(Local, WriteFile("file:///x", c))
  {
    var x := "file:///x";
    assert SkipSlashes(x, 0) == 0;
    assert SegmentStart(x, 8);
    assert LastSegmentStart(x, 0, |x|) == Some(8);
    assert x[4] == ':';
    assert RunStart(x, 0, 8) == 5;
    assert x[0..5] == "file:";
    OneLine(x);
    WriteHasNoFileBranch(x, c, env);
  }

  /** ru and ru_r route the same way and differ only in the recursion flag. */
  lemma RuMatchesRuR(path: string)
    ensures Ru(path).backend == RuR(path).backend
    ensures Ru(path).op.path == RuR(path).op.path == path
    ensures !Ru(path).op.recursive && RuR(path).op.recursive
  {
  }

  /** `RXFileIO.writeable?(source)` */
  function Writeable(source: string, env: Env): (w: bool)
    ensures LineCount(source) > 1 ==> !w
    ensures LineCount(source) <= 1 && !Contains(source, "://") ==> (w <==> env.localExists(source))
    ensures LineCount(source) <= 1 && Contains(source, "://") ==> (w <==> HasPrefix(source, "dfs:"))
  {
    if LineCount(source) > 1 then false
    else
      SingleLineAnchor(source, "dfs:");
      if !Contains(source, "://") then env.localExists(source)
      else AnchoredMatch(source, "dfs:")
  }

  /** Two runs of word characters that both open `s` directly before a `:` are the same run. */
  lemma WordBeforeColonUnique(s: string, t: string, u: string)
    requires forall i | 0 <= i < |t| :: IsWordChar(t[i])
    requires forall i | 0 <= i < |u| :: IsWordChar(u[i])
    requires HasPrefix(s, t + ":") && HasPrefix(s, u + ":")
    ensures t == u
  {
    assert forall i | 0 <= i < |t| :: s[i] == t[i];
    assert forall i | 0 <= i < |u| :: s[i] == u[i];
    assert s[|t|] == ':' && s[|u|] == ':';
    assert s[..|t|] == t && s[..|u|] == u;
  }

  /** For a `t://...` address, the `^dfs:` test holds exactly when `t` is dfs. */
  lemma DfsColonIffToken(source: string, t: string)
    requires t != [] && forall i | 0 <= i < |t| :: IsWordChar(t[i])
    requires HasPrefix(source, t + "://")
    ensures HasPrefix(source, "dfs:") <==> t == "dfs"
  {
    assert source[..|t| + 1] == t + ":";
    if HasPrefix(source, "dfs:") {
      WordBeforeColonUnique(source, t, "dfs");
    }
    if t == "dfs" {
      assert source[..4] == "dfs:";
    }
  }

  /** A single-line `word://...` address is writeable exactly when the scheme is dfs:
      every other remote scheme, ftp and http included, is refused. */
  lemma WriteableSchemes(source: string, t: string, env: Env)
    requires LineCount(source) <= 1 && TokenIs(source, t)
    ensures Writeable(source, env) <==> t == "dfs"
  {
    SingleLineSchemeToken(source, t);
    assert source[|t|..|t| + 3] == "://";
    assert MatchAt(source, |t|, "://");
    DfsColonIffToken(source, t);
  }
}
