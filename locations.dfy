/** How one address is treated across the whole interface: a single-line
    `dfs://` address reaches DfsFile from every operation, a single-line
    `ftp://` address reaches FTP only where the operation has an FTP branch. */
module Locations {
  import opened RubyText
  import opened FilePaths
  import opened Routes
  import opened Dispatch
  import Session
  import Sniffer

  /** `x` is a one-line address with scheme `t`: `t://...` with no newline before its
      last character (a terminating newline still leaves one line). */
  predicate Address(x: string, t: string) {
    HasPrefix(x, t + "://") && forall i | 0 <= i < |x| - 1 :: x[i] != '\n'
  }

  /** An address has exactly one line. */
  lemma AddressLine(x: string, t: string)
    requires Address(x, t)
    ensures LineCount(x) == 1
  {
    OneLine(x);
  }

  /** The scheme facts every operation's test relies on, for a `dfs://` or `ftp://` address. */
  lemma SchemeAddress(x: string, t: string)
    requires t == "dfs" || t == "ftp"
    requires Address(x, t)
    ensures LineCount(x) == 1
    ensures SchemeToken(x) == Some(t)
    ensures AnchoredMatch(x, "dfs://") <==> t == "dfs"
    ensures AnchoredMatch(x, "ftp://") <==> t == "ftp"
    ensures !AnchoredMatch(x, "file://")
    ensures Contains(x, "://")
  {
    AddressLine(x, t);
    SingleLineSchemeToken(x, t);
    assert x[3..6] == "://";
    assert MatchAt(x, 3, "://");
    SchemeLine(x, t);
  }

  /** The anchors of a one-line `dfs://` or `ftp://` address. */
  lemma SchemeLine(x: string, t: string)
    requires t == "dfs" || t == "ftp"
    requires LineCount(x) == 1 && HasPrefix(x, t + "://")
    ensures AnchoredMatch(x, "dfs://") <==> t == "dfs"
    ensures AnchoredMatch(x, "ftp://") <==> t == "ftp"
    ensures !AnchoredMatch(x, "file://")
  {
    SingleLineAnchor(x, "dfs://");
    SingleLineAnchor(x, "ftp://");
    SingleLineAnchor(x, "file://");
    assert x[..6] == t + "://";
    if t == "dfs" {
      assert x[0] == 'd';
    } else {
      assert x[0] == 'f' && x[1] == 't';
    }
  }

  /** The stateless operations without an existence probe send a `dfs://` address to DfsFile. */
  lemma DfsAddressDispatch(x: string, other: string, content: string, env: Env)
    requires Address(x, "dfs")
    ensures Cp(x, other) == Call(Dfs, CopyFile(x, other))
    ensures Write(x, content, env) == Call(Dfs, WriteFile(x, content))
    ensures Ru(x) == Call(Dfs, LatestIn(x, false))
    ensures RuR(x) == Call(Dfs, LatestIn(x, true))
    ensures Writeable(x, env)
  {
    SchemeAddress(x, "dfs");
    WriteableSchemes(x, "dfs", env);
  }

  /** ls and mkdir send a `dfs://` address to DfsFile unless its dirname exists locally. */
  lemma DfsAddressProbed(x: string, env: Env)
    requires Address(x, "dfs")
    requires !env.localExists(Dirname(x))
    ensures Ls(x, env) == Call(Dfs, ListGlob(x))
    ensures Mkdir(x, env) == Call(Dfs, MakeDir(x))
  {
    SchemeAddress(x, "dfs");
  }

  /** The session operations on a `dfs://` address go to DfsFile in any session
      (touch by the scheme in a local session, by `@fs` in a DFS one). */
  lemma DfsAddressSession(x: string, fs: Session.Fs, mode: int, mtime: int, pwd: string)
    requires Address(x, "dfs")
    ensures Session.ChmodRoute(fs, Some(mode), Some(x)) == Call(Dfs, ChangeMode(mode, x))
    ensures Session.MkdirPRoute(fs, x) == Call(Dfs, MakeDirs(x))
    ensures Session.TouchRoute(fs, x, mtime, pwd).backend == Dfs
  {
    SchemeAddress(x, "dfs");
    Session.OnDfsIffHost(fs);
  }

  /** read of a `dfs://` address is DfsFile.read of the whole address. */
  lemma DfsAddressRead(x: string, opts: Sniffer.Options, env: Env)
    requires Address(x, "dfs")
    ensures Sniffer.Read(Sniffer.Str(x), opts, env) == Ok(Sniffer.Content(env.dfsRead(x), Sniffer.Dfs))
  {
    AddressLine(x, "dfs");
    assert x[..6] == "dfs://";
    assert x[0] == 'd';
    Sniffer.ReadDfsReference(x, opts, env);
  }

  /** An `ftp://` address reaches FTP from cp and write; ru and ru_r hand it to
      DirToXML, and writeable? refuses it. */
  lemma FtpAddressDispatch(x: string, other: string, content: string, env: Env)
    requires Address(x, "ftp")
    ensures Cp(x, other) == Call(Ftp, CopyFile(x, other))
    ensures Write(x, content, env) == Call(Ftp, WriteFile(x, content))
    ensures Ru(x) == Call(Local, LatestIn(x, false))
    ensures RuR(x) == Call(Local, LatestIn(x, true))
    ensures !Writeable(x, env)
  {
    SchemeAddress(x, "ftp");
    WriteableSchemes(x, "ftp", env);
  }

  /** Unless its dirname exists locally, ls sends an `ftp://` address to FTP and mkdir ignores it. */
  lemma FtpAddressProbed(x: string, env: Env)
    requires Address(x, "ftp")
    requires !env.localExists(Dirname(x))
    ensures Ls(x, env) == Call(Ftp, ListGlob(x))
    ensures Mkdir(x, env) == NoOp
  {
    SchemeAddress(x, "ftp");
  }

  /** In a local session an `ftp://` address is handed to FileUtils by chmod, mkdir_p and touch. */
  lemma FtpAddressLocalSession(x: string, mode: int, mtime: int, pwd: string)
    requires Address(x, "ftp")
    ensures Session.ChmodRoute(Session.LocalFs, Some(mode), Some(x)) == Call(Local, ChangeMode(mode, x))
    ensures Session.MkdirPRoute(Session.LocalFs, x) == Call(Local, MakeDirs(x))
    ensures Session.TouchRoute(Session.LocalFs, x, mtime, pwd) == Call(Local, TouchFile(x, mtime))
  {
    SchemeAddress(x, "ftp");
  }

  /** read of an `ftp://` address is MyMediaFTP.read of the whole address. */
  lemma FtpAddressRead(x: string, opts: Sniffer.Options, env: Env)
    requires Address(x, "ftp")
    ensures Sniffer.Read(Sniffer.Str(x), opts, env) == Ok(Sniffer.Content(env.ftpRead(x), Sniffer.Ftp))
  {
    AddressLine(x, "ftp");
    assert x[..6] == "ftp://";
    assert x[0] == 'f';
    Sniffer.ReadFtpReference(x, opts, env);
  }
}
