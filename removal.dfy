/** rm and rm_r: a remote address goes to its backend in one call; a local name
    whose last component holds a `*` is expanded by Dir.glob and each match is
    removed on its own, a failure on one entry turning into a warning and not
    stopping the others. */
module Removal {
  import opened RubyText
  import opened FilePaths
  import opened Routes

  /** One removal inside a glob batch: the FileUtils call made for the entry,
      and the warning printed if that call raised. */
  datatype Attempt = Attempt(op: Op, warning: Option<string>)

  /** The outcome of rm / rm_r: a single call, or one attempt per glob match. */
  datatype Removal = Routed(route: Route) | Batch(attempts: seq<Attempt>)

  /** The rescue clause's message; rm_r prints the same `RXFileIO#rm: ` prefix. */
  function DirectoryWarning(file: string): (m: string)
    ensures |m| == 13 + |file| + 15
    ensures HasPrefix(m, "RXFileIO#rm: ")
    ensures m[13..13 + |file|] == file
    ensures m[13 + |file|..] == " is a Directory"
  {
    "RXFileIO#rm: " + file + " is a Directory"
  }

  /** FileUtils.rm for rm, FileUtils.rm_r with the caller's force flag for rm_r. */
  function RemoveOp(file: string, recursive: bool, force: bool): Op {
    if recursive then RemoveTree(file, force) else RemoveFile(file)
  }

  /** `File.basename(filename) =~ /\*\/`: the last component holds a wildcard. */
  predicate HasWildcard(filename: string) {
    '*' in Basename(filename)
  }

  /** Only the last component decides: a `*` in a directory part does not make a batch. */
  lemma WildcardOfJoin(dir: string, name: string)
    requires name != [] && forall i | 0 <= i < |name| :: name[i] != '/'
    ensures HasWildcard(dir + "/" + name) <==> '*' in name
  {
    BasenameOfJoin(dir, name);
  }

  /** A bare name is its own last component: it is a glob exactly when it holds a `*`. */
  lemma WildcardOfName(name: string)
    requires name != [] && forall i | 0 <= i < |name| :: name[i] != '/'
    ensures HasWildcard(name) <==> '*' in name
  {
    BasenameOfName(name);
  }

  /** `attempts` is what the `each ... rescue` loop leaves for `matches`: one attempt per
      match, in glob order, each making its own call whatever happened before it, and
      warning exactly when that call raised. */
  predicate IsolatedBatch(attempts: seq<Attempt>, matches: seq<string>, recursive: bool, force: bool,
                          raises: (nat, string) -> bool)
  {
    && |attempts| == |matches|
    && (forall i | 0 <= i < |matches| :: attempts[i].op == RemoveOp(matches[i], recursive, force))
    && (forall i | 0 <= i < |matches| ::
          attempts[i].warning == if raises(i, matches[i]) then Some(DirectoryWarning(matches[i])) else None)
  }

  /** The batch description leaves nothing open: it determines every attempt. */
  lemma IsolatedBatchUnique(a1: seq<Attempt>, a2: seq<Attempt>, matches: seq<string>, recursive: bool,
                            force: bool, raises: (nat, string) -> bool)
    requires IsolatedBatch(a1, matches, recursive, force, raises)
    requires IsolatedBatch(a2, matches, recursive, force, raises)
    ensures a1 == a2
  {
    forall i | 0 <= i < |a1| ensures a1[i] == a2[i] {
      assert a1[i].op == a2[i].op && a1[i].warning == a2[i].warning;
    }
  }

  /** Failures change only the warnings: the calls made are the same whichever entries raise. */
  lemma FailuresDoNotStopBatch(a1: seq<Attempt>, a2: seq<Attempt>, matches: seq<string>, recursive: bool,
                               force: bool, raises1: (nat, string) -> bool, raises2: (nat, string) -> bool)
    requires IsolatedBatch(a1, matches, recursive, force, raises1)
    requires IsolatedBatch(a2, matches, recursive, force, raises2)
    ensures forall i | 0 <= i < |matches| :: a1[i].op == a2[i].op
    ensures (forall i | 0 <= i < |matches| :: raises1(i, matches[i]) == raises2(i, matches[i])) ==> a1 == a2
  {
    if forall i | 0 <= i < |matches| :: raises1(i, matches[i]) == raises2(i, matches[i]) {
      forall i | 0 <= i < |a1| ensures a1[i] == a2[i] {
        assert a1[i].op == a2[i].op && a1[i].warning == a2[i].warning;
      }
    }
  }

  /** The `Dir.glob(filename).each do |file| begin ... rescue ... end end` loop. */
  method RemoveEach(matches: seq<string>, recursive: bool, force: bool, raises: (nat, string) -> bool)
    returns (attempts: seq<Attempt>)
    ensures IsolatedBatch(attempts, matches, recursive, force, raises)
  {
    attempts := [];
    var i := 0;
    while i < |matches|
      invariant 0 <= i <= |matches|
      invariant IsolatedBatch(attempts, matches[..i], recursive, force, raises)
    {
      var file := matches[i];
      var op := RemoveOp(file, recursive, force);
      var warning: Option<string> := None;
      if raises(i, file) {
        warning := Some(DirectoryWarning(file));
      }
      attempts := attempts + [Attempt(op, warning)];
      assert matches[..i + 1][i] == file;
      i := i + 1;
    }
    assert matches[..i] == matches;
  }

  /** `RXFileIO.rm(filename)` */
  method Rm(filename: string, env: Env) returns (r: Removal)
    ensures SchemeToken(filename) == Some("dfs") ==> r == Routed(Call(Dfs, RemoveFile(filename)))
    ensures SchemeToken(filename) == Some("ftp") ==> r == Routed(Call(Ftp, RemoveFile(filename)))
    ensures SchemeToken(filename) != Some("dfs") && SchemeToken(filename) != Some("ftp") ==>
              if HasWildcard(filename) then
                r.Batch? && IsolatedBatch(r.attempts, env.glob(filename), false, false, env.removeRaises)
              else
                r == Routed(Call(Local, RemoveFile(filename)))
  {
    var token := SchemeToken(filename);
    if token == Some("dfs") {
      r := Routed(Call(Dfs, RemoveFile(filename)));
    } else if token == Some("ftp") {
      r := Routed(Call(Ftp, RemoveFile(filename)));
    } else if HasWildcard(filename) {
      var attempts := RemoveEach(env.glob(filename), false, false, env.removeRaises);
      r := Batch(attempts);
    } else {
      r := Routed(Call(Local, RemoveFile(filename)));
    }
  }

  /** `RXFileIO.rm_r(filename, force:)`: like rm, except that only dfs is remote
      (an `ftp://` name goes down the local path) and every call passes `force`. */
  method RmR(filename: string, force: bool, env: Env) returns (r: Removal)
    ensures SchemeToken(filename) == Some("dfs") ==> r == Routed(Call(Dfs, RemoveTree(filename, force)))
    ensures SchemeToken(filename) != Some("dfs") ==>
              if HasWildcard(filename) then
                r.Batch? && IsolatedBatch(r.attempts, env.glob(filename), true, force, env.removeRaises)
              else
                r == Routed(Call(Local, RemoveTree(filename, force)))
    ensures r.Routed? ==> r.route.Call? && r.route.backend != Ftp
  {
    var token := SchemeToken(filename);
    if token == Some("dfs") {
      r := Routed(Call(Dfs, RemoveTree(filename, force)));
    } else if HasWildcard(filename) {
      var attempts := RemoveEach(env.glob(filename), true, force, env.removeRaises);
      r := Batch(attempts);
    } else {
      r := Routed(Call(Local, RemoveTree(filename, force)));
    }
  }
}
