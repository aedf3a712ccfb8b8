/** The vocabulary of RXFileIO's dispatch decisions: which backend receives
    which call, the failures it raises itself, and the backends' answers that
    its decisions depend on. */
module Routes {
  import opened RubyText

  /** Local: FileUtils, File, Dir and DirToXML. Dfs: the DfsFile client. Ftp: MyMediaFTP. */
  datatype Backend = Local | Dfs | Ftp

  /** One backend call, with the arguments it is given. */
  datatype Op =
    | ChangeMode(mode: int, path: string)        // chmod
    | CopyFile(src: string, dst: string)         // cp
    | ChangeDir(path: string)                    // chdir
    | ListGlob(pattern: string)                  // Dir[] / ls
    | MakeDir(path: string)                      // mkdir
    | MakeDirs(path: string)                     // mkdir_p
    | RemoveFile(path: string)                   // rm
    | RemoveTree(path: string, force: bool)      // rm_r
    | LatestIn(path: string, recursive: bool)    // ru / ru_r (DirToXML#latest locally)
    | TouchFile(path: string, mtime: int)        // touch
    | WriteFile(path: string, content: string)   // write / File.write

  /** The decision of one operation: a call on one backend, or nothing at all
      (the source's branches that fall through and return nil). */
  datatype Route = Call(backend: Backend, op: Op) | NoOp

  /** The exceptions the dispatch layer raises itself (backend errors are not modelled). */
  datatype Failure =
    | IOException(message: string)   // RXFileIOException
    | TypeError(message: string)     // Ruby's TypeError

  datatype Result<T> = Ok(value: T) | Err(failure: Failure)

  /** RestClient.get, or GPDRequest when both credentials are given. */
  datatype Client = Anonymous | Authenticated(username: string, password: string)

  datatype Response = Response(code: string, body: string)

  /** What the backends answer, as fixed functions of their arguments. */
  datatype Env = Env(
    localExists: string -> bool,          // File.exists?
    dfsExists: string -> bool,            // DfsFile.exists?
    http: (Client, string) -> Response,   // the response to a GET
    dfsRead: string -> string,            // DfsFile.read
    ftpRead: string -> string,            // MyMediaFTP.read
    fileRead: string -> string,           // File.read(File.expand_path(path))
    dfsPwd: string,                       // DfsFile.pwd
    glob: string -> seq<string>,          // Dir.glob
    removeRaises: (nat, string) -> bool   // the i-th removal in a glob batch raises for this entry
  )

  /** The backend a route goes to, if any. */
  function BackendOf(r: Route): Option<Backend> {
    match r
    case Call(b, _) => Some(b)
    case NoOp => None
  }
}
