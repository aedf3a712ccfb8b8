/** The class-level `@fs` of RXFileIO: which file system relative operations
    address. chdir sets it; touch, chmod and mkdir_p consult it. */
module Session {
  import opened RubyText
  import opened FilePaths
  import opened Routes

  /** `@fs`: the symbol `:local`, or the string `"dfs://" + host`. */
  datatype Fs = LocalFs | DfsFs(host: string)

  /** The text of `@fs` as Ruby indexes it: `:local[0..2]` reads the symbol's name,
      a DFS root is the string itself. */
  function FsText(fs: Fs): (t: string)
    ensures |t| >= 5
  {
    match fs
    case LocalFs => "local"
    case DfsFs(host) => "dfs://" + host
  }

  /** `@fs[0..2] == 'dfs'` */
  predicate OnDfs(fs: Fs) {
    FsText(fs)[..3] == "dfs"
  }

  const NilConversion := "no implicit conversion of nil into String"

  /** What chdir leaves behind: the new `@fs` and the call it made (or the error it raised). */
  datatype Transition = Transition(next: Fs, result: Result<Route>)

  /** `RXFileIO.chdir(x)` on a session whose `@fs` is `fs`. */
  function ChdirStep(fs: Fs, x: string, env: Env): (t: Transition)
    ensures AnchoredMatch(x, "file://") || env.localExists(Dirname(x)) ==>
              t == Transition(LocalFs, Ok(Call(Local, ChangeDir(x))))
    ensures !AnchoredMatch(x, "file://") && !env.localExists(Dirname(x)) && AnchoredMatch(x, "dfs://") ==>
              match DfsHost(x)
              case Some(h) => t == Transition(DfsFs(h), Ok(Call(Dfs, ChangeDir(x))))
              case None => t == Transition(fs, Err(TypeError(NilConversion)))
    ensures !AnchoredMatch(x, "file://") && !env.localExists(Dirname(x)) && !AnchoredMatch(x, "dfs://") ==>
              t == Transition(fs, Ok(NoOp))
    ensures t.result.Err? ==> t.next == fs
  {
    if AnchoredMatch(x, "file://") || env.localExists(Dirname(x)) then
      Transition(LocalFs, Ok(Call(Local, ChangeDir(x))))
    else if AnchoredMatch(x, "dfs://") then
      match DfsHost(x)
      case Some(h) => Transition(DfsFs(h), Ok(Call(Dfs, ChangeDir(x))))
      case None => Transition(fs, Err(TypeError(NilConversion)))
    else
      Transition(fs, Ok(NoOp))
  }

  /** `RXFileIO.touch(filename, mtime:)`: in a DFS session the file is always
      `@fs + pwd + '/' + filename` on DFS, whatever prefix filename carries;
      otherwise a dfs token goes to DfsFile and everything else, ftp included, to FileUtils. */
  function TouchRoute(fs: Fs, filename: string, mtime: int, pwd: string): (r: Route)
    ensures OnDfs(fs) ==> r == Call(Dfs, TouchFile(FsText(fs) + pwd + "/" + filename, mtime))
    ensures !OnDfs(fs) ==> r.Call? && r.op == TouchFile(filename, mtime)
    ensures !OnDfs(fs) ==> (r.backend == Dfs <==> SchemeToken(filename) == Some("dfs"))
    ensures r.Call? && r.backend != Ftp
  {
    if OnDfs(fs) then Call(Dfs, TouchFile(FsText(fs) + pwd + "/" + filename, mtime))
    else
      match SchemeToken(filename)
      case Some("dfs") => Call(Dfs, TouchFile(filename, mtime))
      case _ => Call(Local, TouchFile(filename, mtime))
  }

  /** `RXFileIO.chmod(permissions, s)`. An argument of the wrong class is None. */
  function ChmodRoute(fs: Fs, permissions: Option<int>, s: Option<string>): (r: Route)
    ensures permissions.None? || s.None? ==> r == NoOp
    ensures permissions.Some? && s.Some? ==>
              r.Call? && r.op == ChangeMode(permissions.value, s.value)
              && (r.backend == Dfs <==> AnchoredMatch(s.value, "dfs://") || OnDfs(fs))
              && r.backend != Ftp
  {
    match (permissions, s)
    case (Some(p), Some(path)) =>
      if AnchoredMatch(path, "dfs://") || OnDfs(fs) then Call(Dfs, ChangeMode(p, path))
      else Call(Local, ChangeMode(p, path))
    case _ => NoOp
  }

  /** `RXFileIO.mkdir_p(x)`: DfsFile for `dfs://` or in a DFS session, FileUtils otherwise. */
  function MkdirPRoute(fs: Fs, x: string): (r: Route)
    ensures r.Call? && r.op == MakeDirs(x)
    ensures r.backend == Dfs <==> AnchoredMatch(x, "dfs://") || OnDfs(fs)
    ensures r.backend != Ftp
  {
    if AnchoredMatch(x, "dfs://") || OnDfs(fs) then Call(Dfs, MakeDirs(x))
    else Call(Local, MakeDirs(x))
  }

  /** The `[0..2] == 'dfs'` test tells the two kinds of `@fs` apart: the symbol `:local`
      fails it (its first three characters are `loc`) and every `'dfs://' + host` passes. */
  lemma OnDfsIffHost(fs: Fs)
    ensures OnDfs(fs) <==> fs.DfsFs?
  {
    match fs
    case LocalFs =>
      assert FsText(fs)[..3] == "loc";
    case DfsFs(host) =>
      assert FsText(fs)[..3] == "dfs";
  }

  /** A `dfs://host/dir` address whose host and directory have no newline is one line. */
  lemma DfsAddressIsOneLine(host: string, dir: string)
    requires forall i | 0 <= i < |host| :: host[i] != '\n'
    requires forall i | 0 <= i < |dir| :: dir[i] != '\n'
    ensures LineCount("dfs://" + host + dir) == 1
  {
    var x := "dfs://" + host + dir;
    forall i | 0 <= i < |x| ensures x[i] != '\n' {
      if 6 <= i < 6 + |host| {
        assert x[i] == host[i - 6];
      } else if i >= 6 + |host| {
        assert x[i] == dir[i - 6 - |host|];
      }
    }
    OneLine(x);
  }

  /** `chdir("dfs://host/dir")`, with no local parent for it, switches the session to that host. */
  lemma ChdirDfs(fs: Fs, host: string, dir: string, env: Env)
    requires host != [] && forall i | 0 <= i < |host| :: host[i] != '/' && host[i] != '\n'
    requires dir == [] || dir[0] == '/'
    requires forall i | 0 <= i < |dir| :: dir[i] != '\n'
    requires !env.localExists(Dirname("dfs://" + host + dir))
    ensures ChdirStep(fs, "dfs://" + host + dir, env)
            == Transition(DfsFs(host), Ok(Call(Dfs, ChangeDir("dfs://" + host + dir))))
  {
    var x := "dfs://" + host + dir;
    DfsAddressIsOneLine(host, dir);
    SingleLineAnchor(x, "file://");
    assert x[1] == 'f';
    assert !AnchoredMatch(x, "file://");
    assert LineStart(x, 0) && MatchAt(x, 0, "dfs://");
    DfsHostOf(host, dir);
  }

  /** After `chdir("dfs://host/dir")` with no local parent for it, touch of any name
      lands on that host, under DfsFile.pwd. */
  lemma ChdirDfsThenTouch(fs: Fs, host: string, dir: string, filename: string, mtime: int, env: Env)
    requires host != [] && forall i | 0 <= i < |host| :: host[i] != '/' && host[i] != '\n'
    requires dir == [] || dir[0] == '/'
    requires forall i | 0 <= i < |dir| :: dir[i] != '\n'
    requires !env.localExists(Dirname("dfs://" + host + dir))
    ensures TouchRoute(ChdirStep(fs, "dfs://" + host + dir, env).next, filename, mtime, env.dfsPwd)
            == Call(Dfs, TouchFile("dfs://" + host + env.dfsPwd + "/" + filename, mtime))
  {
    ChdirDfs(fs, host, dir, env);
    OnDfsIffHost(DfsFs(host));
  }

  /** chdir to a `file://` location always returns the session to local, from any state,
      and touch then stays local for unprefixed names. */
  lemma ChdirFileThenTouch(fs: Fs, x: string, filename: string, mtime: int, env: Env)
    requires HasPrefix(x, "file://")
    requires SchemeToken(filename).None?
    ensures ChdirStep(fs, x, env).next == LocalFs
    ensures TouchRoute(ChdirStep(fs, x, env).next, filename, mtime, env.dfsPwd) == Call(Local, TouchFile(filename, mtime))
  {
    assert LineStart(x, 0) && MatchAt(x, 0, "file://");
    OnDfsIffHost(LocalFs);
  }

  /** The session object: one field, `@fs`, initially `:local`. */
  class FileIO {
    var fs: Fs

    constructor ()
      ensures fs == LocalFs
    {
      fs := LocalFs;
    }

    /** `RXFileIO.chdir(x)` */
    method Chdir(x: string, env: Env) returns (r: Result<Route>)
      modifies this
      ensures fs == ChdirStep(old(fs), x, env).next
      ensures r == ChdirStep(old(fs), x, env).result
    {
      if AnchoredMatch(x, "file://") || env.localExists(Dirname(x)) {
        fs := LocalFs;
        r := Ok(Call(Local, ChangeDir(x)));
      } else if AnchoredMatch(x, "dfs://") {
        var host := DfsHost(x);
        if host.None? {
          r := Err(TypeError(NilConversion));
          return;
        }
        fs := DfsFs(host.value);
        r := Ok(Call(Dfs, ChangeDir(x)));
      } else {
        r := Ok(NoOp);
      }
    }

    /** `RXFileIO.touch(filename, mtime:)` */
    method Touch(filename: string, mtime: int, env: Env) returns (r: Route)
      ensures r == TouchRoute(fs, filename, mtime, env.dfsPwd)
    {
      if OnDfs(fs) {
        return Call(Dfs, TouchFile(FsText(fs) + env.dfsPwd + "/" + filename, mtime));
      }
      var token := SchemeToken(filename);
      if token == Some("dfs") {
        r := Call(Dfs, TouchFile(filename, mtime));
      } else {
        r := Call(Local, TouchFile(filename, mtime));
      }
    }

    /** `RXFileIO.chmod(permissions, s)` */
    method Chmod(permissions: Option<int>, s: Option<string>) returns (r: Route)
      ensures r == ChmodRoute(fs, permissions, s)
    {
      if permissions.None? || s.None? {
        return NoOp;
      }
      if AnchoredMatch(s.value, "dfs://") || OnDfs(fs) {
        r := Call(Dfs, ChangeMode(permissions.value, s.value));
      } else {
        r := Call(Local, ChangeMode(permissions.value, s.value));
      }
    }

    /** `RXFileIO.mkdir_p(x)` */
    method MkdirP(x: string) returns (r: Route)
      ensures r == MkdirPRoute(fs, x)
    {
      if AnchoredMatch(x, "dfs://") || OnDfs(fs) {
        r := Call(Dfs, MakeDirs(x));
      } else {
        r := Call(Local, MakeDirs(x));
      }
    }
  }
}
