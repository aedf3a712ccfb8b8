# RXFileIO routing and sniffing, in Dafny

RXFileIO (`lib/rxfileio.rb`) gives Ruby code one file interface over several
stores: local files (FileUtils, File, Dir, DirToXML), a distributed file system
(DfsFile, addressed as `dfs://host/...`) and FTP (MyMediaFTP, `ftp://...`).
`RXFileIO.read` also sniffs its argument and tells inline XML, URLs, remote and
local paths and plain text apart. All of its real work is delegated. What it
decides itself is which backend gets which argument, in which order the tests
are made, and what the class-level `@fs` session field holds. This project
models those decisions and proves properties about them.

Layout:

- `ruby_text.dfy` (module `RubyText`): the Ruby primitives the decisions use.
  It covers `^` anchoring at every line start, `\w`, `\s`, `String#strip` and
  `String#lines.length`. It also holds the scheme-token helper
  `s[/^\w+(?=:\/\/)/]`.
- `file_paths.dfy` (module `FilePaths`): `File.basename` and `File.dirname`
  with POSIX behaviour, and the host lookbehind `(?<=dfs:\/\/)[^\/]+` used by
  chdir.
- `routes.dfy` (module `Routes`): the decision vocabulary. A `Route` is either
  `Call(backend, op)` or `NoOp`; `NoOp` models the branches that fall through
  and return nil. This module also defines the failures RXFileIO raises itself
  and `Env`, the backends' answers as fixed functions of their arguments.
- `sniffer.dfy` (module `Sniffer`): `read`. This is the chain of checks as one
  `Sniff` plan plus the `Fetch` that carries the plan out. It also gives the same
  chain as an ordered rule table with a first-match-wins lemma.
- `dispatch.dfy` (module `Dispatch`): the stateless rules for cp, ls, mkdir,
  write, ru, ru_r and writeable?.
- `session.dfy` (module `Session`): `@fs` as a class `FileIO` with one field. Its
  methods are chdir, which updates the field, and touch, chmod and mkdir_p, which
  read it. Each method is proved against a specification function of the state.
- `removal.dfy` (module `Removal`): rm and rm_r. A local wildcard triggers the
  glob batch loop, which removes each entry separately.
- `locations.dfy` (module `Locations`): how one `dfs://` or `ftp://` address is
  routed by cp, ls, mkdir, write, ru, ru_r, writeable?, chmod, mkdir_p, touch and
  read. For rm and rm_r the same routing is part of `Removal.Rm` and
  `Removal.RmR`; for chdir it is `Session.ChdirDfs`.

Two kinds of backend answer enter as parameters (fields of `Env`):

- **Existence probes:** `File.exists?`, `DfsFile.exists?`, `Dir.glob`.
- **Fetched data:** HTTP responses, file contents, `DfsFile.pwd`, and whether
  the i-th removal of a glob batch raises.

`Env` is the only place where the file systems and the network appear.

Points where the code behaves in a way its interface does not suggest, and which the model keeps:

- **The local-parent probe comes before the `dfs://` test.** ls asks
  `File.exists?(File.dirname(x))` before it looks at any prefix; chdir and mkdir
  test `^file://` first and the local parent next, both ahead of `^dfs://`. So a
  `dfs://` address whose dirname happens to exist locally is handled locally.
  The model keeps that order.
- **Tags come from the first line that carries a scheme.** A multi-line argument
  gets the token from the first line written `word://`. The model keeps Ruby's
  line-wise `^` throughout. `RubyText.SingleLineAnchor` and
  `RubyText.SingleLineSchemeToken` show that on one line the tests are plain
  prefix tests.
- **chdir can raise.** It stores `'dfs://' + host` before it calls DfsFile. For
  a `dfs://` address with no host (`dfs:///x`), the host is nil and the
  concatenation raises TypeError. The model returns that error and leaves `@fs`
  unchanged.
- **write has no `file://` branch.** Only `^dfs://` and `^ftp://` are tested, so
  `write("file:///x", s)` asks DfsFile whether `File.dirname("file:///x")`, which
  is `"file:"`, exists and, failing that, passes the prefixed string to
  `File.write`.
- **rm_r warns as rm.** rm_r prints the same `RXFileIO#rm: ... is a Directory`
  warning as rm.
- **The status code is compared as a string.** read compares it with the
  strings `'404'` and `'401'`, and the model does the same.

## Model

| member | source | states |
|---|---|---|
| RubyText.AnchoredBetween | lib/rxfileio.rb:122-398 | `^pat` lies between a prefix test and plain containment: a string starting with `pat` matches it, a match is an occurrence, and an occurrence fits in the string |
| RubyText.SpaceIsContained | lib/rxfileio.rb:244 | `x =~ /\s/` holds exactly when one of the six whitespace characters occurs in `x` |
| RubyText.Strip | lib/rxfileio.rb:198 | the result is the slice of the input between the first and last character that `strip` keeps, with only stripped characters cut at either end |
| RubyText.LineCount | lib/rxfileio.rb:202 | `lines.length` is zero exactly for the empty string |
| RubyText.OneLine | lib/rxfileio.rb:202 | a non-empty string with no newline before its last character has `lines.length == 1`, so `"abc"` and `"abc\n"` are both one line |
| RubyText.NoInnerNewline | lib/rxfileio.rb:202 | a string with at most one line has no newline before its last character |
| RubyText.SingleLineAnchor | lib/rxfileio.rb:206-234 | on a string of at most one line, `^pat` matches exactly when the string starts with `pat` |
| RubyText.SchemeToken | lib/rxfileio.rb:98 | the token is absent exactly when no line start is followed by a word run and `://`; when present it is the whole word run at the leftmost such line start |
| RubyText.TokenFromLaterLine | lib/rxfileio.rb:98 | the token of `"a b\nftp://x"` is `ftp`: lines without a scheme are skipped |
| RubyText.SchemeTokenOf | lib/rxfileio.rb:260 | round trip: the token of `t://rest` is `t` for every word `t` and every `rest` |
| RubyText.SingleLineSchemeToken | lib/rxfileio.rb:354 | on one line, the token is `t` exactly when the string starts with `t://` |
| RubyText.SingleLineToken | lib/rxfileio.rb:260-264 | on one line, the token test `when 'dfs'` / `when 'ftp'` and the anchor `^dfs://` / `^ftp://` agree |
| FilePaths.Basename | lib/rxfileio.rb:267 | `File.basename` is `/` or free of separators, and non-empty for a non-empty path |
| FilePaths.BasenameOfJoin | lib/rxfileio.rb:296 | the basename of `dir/name` is `name` |
| FilePaths.BasenameOfName | lib/rxfileio.rb:267 | a name without separators is its own basename |
| FilePaths.BasenameTrailingSlash | lib/rxfileio.rb:296 | a trailing slash does not change the basename |
| FilePaths.Dirname | lib/rxfileio.rb:139 | `File.dirname` is never empty |
| FilePaths.DirnameOfName | lib/rxfileio.rb:156 | a name without separators lives in `.` |
| FilePaths.DirnameOfJoin | lib/rxfileio.rb:378 | the dirname of `dir/name` is `dir`, for `dir` without trailing slash or leading `//` |
| FilePaths.DfsHost | lib/rxfileio.rb:129 | nil exactly when no `dfs://` in the string is followed by a non-`/` character; otherwise the whole run of non-`/` characters after the leftmost such `dfs://` |
| FilePaths.DfsHostOf | lib/rxfileio.rb:129-130 | round trip: the host of `dfs://host` or `dfs://host/...` is `host` |
| FilePaths.DfsHostEmpty | lib/rxfileio.rb:129-130 | `dfs:///path` with no `:` in `path` has a nil host |
| Sniffer.SingleLineXml | lib/rxfileio.rb:198 | on one line with no whitespace at either end, the XML test holds exactly for `<` followed by a character other than `?`, or for `<?xml` |
| Sniffer.SingleLineHttp | lib/rxfileio.rb:206 | on one line, `^https?://` holds exactly when the string starts with `http://` or `https://` |
| Sniffer.DropFileScheme | lib/rxfileio.rb:236 | removing a leading `file://` gives the rest of the string, and strings without it are kept |
| Sniffer.Sniff | lib/rxfileio.rb:198-250 | XML and non-single-line input are returned as-is; each fetch plan is chosen only under its own test (URL, `dfs://` or DFS existence, `ftp://`, `file://` or local existence); `:text` only with whitespace |
| Sniffer.SniffIsFirstMatch | lib/rxfileio.rb:198-255 | the chain of read equals the first matching rule of the ordered table of eight checks, else `:unknown` |
| Sniffer.SniffFirstMatchWins | lib/rxfileio.rb:198-250 | when check i is the first that holds, read follows check i |
| Sniffer.ClientFor | lib/rxfileio.rb:210-214 | the authenticated client, with those credentials, exactly when both username and password are given |
| Sniffer.Fetch | lib/rxfileio.rb:210-247 | a 404 status raises "404 url not found", a 401 raises "401 url unauthorized access", any other returns the body as `:url`; backend reads return the backend's content with its tag |
| Sniffer.Read | lib/rxfileio.rb:185-256 | nil raises "nil found, expected a string"; a Rexle document gives its XML; XML text and input without exactly one line come back unchanged; errors arise only from nil or a URL |
| Sniffer.ReadGatesIgnoreBackends | lib/rxfileio.rb:198-255 | XML text and input without exactly one line give the same result whatever the backends answer, and the text is unchanged |
| Sniffer.ReferenceIsNotXml | lib/rxfileio.rb:198 | one line that does not open with `<` or whitespace is never taken for XML |
| Sniffer.ReadDfsReference | lib/rxfileio.rb:225-228 | a single-line `dfs://` reference is DfsFile.read of itself, tagged `:dfs` |
| Sniffer.ReadFtpReference | lib/rxfileio.rb:230-232 | a single-line `ftp://` reference is MyMediaFTP.read of itself, tagged `:ftp` |
| Sniffer.ReadFileReference | lib/rxfileio.rb:234-242 | a single-line `file://` reference reads the path after `file://`, tagged `:file` |
| Sniffer.ReadReferenceBare | lib/rxfileio.rb:234-250 | for one line that is not XML and has no scheme prefix: a local file is read, else whitespace gives `:text`, else a DFS path is read, else `:unknown` |
| Sniffer.ReadUrlStatus | lib/rxfileio.rb:206-223 | for a URL, status 404, status 401 and any other status each happen exactly when read raises not-found, raises unauthorized or returns the body |
| Sniffer.ReadEmpty | lib/rxfileio.rb:252-255 | `""` has no lines and comes back as `("", :unknown)` |
| Sniffer.ReadTrailingNewline | lib/rxfileio.rb:202-245 | `"abc\n"` counts as one line and, with no such local file, comes back as `:text` |
| Sniffer.ReadXmlOnSecondLine | lib/rxfileio.rb:198-200 | a tag at the start of the second line makes the input XML |
| Dispatch.Cp | lib/rxfileio.rb:91-113 | local exactly when neither side has a scheme; DfsFile or FTP exactly when the first side with a scheme has token dfs or ftp; no-op exactly for another token; always with both arguments |
| Dispatch.GrepScheme | lib/rxfileio.rb:93 | `grep` keeps exactly the elements that have a scheme line, and only elements of the list |
| Dispatch.GrepSchemeFirst | lib/rxfileio.rb:93-98 | the first element of the grep is the first element of the list that has a scheme |
| Dispatch.FirstWithScheme | lib/rxfileio.rb:98 | `found.first` is one of the two arguments and, when anything was found, the head of the grep |
| Dispatch.CpFirstSchemeWins | lib/rxfileio.rb:93-98 | when the source has a scheme, the destination does not affect the backend |
| Dispatch.CpOneSided | lib/rxfileio.rb:93-112 | when at most one side has a scheme, swapping the arguments keeps the backend |
| Dispatch.Ls | lib/rxfileio.rb:137-152 | Dir[] exactly when the dirname exists locally or the token is file; DfsFile and FTP exactly for their tokens otherwise; nil else |
| Dispatch.Mkdir | lib/rxfileio.rb:154-162 | FileUtils exactly for `file://` or an existing local parent; DfsFile exactly for `dfs://` otherwise; never FTP |
| Dispatch.Write | lib/rxfileio.rb:365-386 | always writes; DfsFile exactly for `dfs://` or a location matching neither `^dfs://` nor `^ftp://` (`file://` included) whose dirname exists on DFS; FTP exactly for `ftp://` without `dfs://`; File.write otherwise |
| Dispatch.WriteHasNoFileBranch | lib/rxfileio.rb:367-383 | a one-line `file://` location is written to DfsFile when its dirname exists on DFS and otherwise handed to File.write with the prefix kept |
| Dispatch.WriteFileUrlProbe | lib/rxfileio.rb:376-381 | `File.dirname("file:///x")` is `"file:"`, so write of `file:///x` goes to DfsFile exactly when `"file:"` exists on DFS and to File.write otherwise |
| Dispatch.Ru | lib/rxfileio.rb:318-330 | DfsFile.ru exactly for a dfs token, non-recursive DirToXML otherwise |
| Dispatch.RuR | lib/rxfileio.rb:334-346 | DfsFile.ru_r exactly for a dfs token, recursive DirToXML otherwise |
| Dispatch.RuMatchesRuR | lib/rxfileio.rb:318-346 | ru and ru_r pick the same backend for the same path and differ only in recursion |
| Dispatch.Writeable | lib/rxfileio.rb:388-403 | false for more than one line; for one line without `://`, true exactly when the path exists locally; with `://`, true exactly when it starts with `dfs:` |
| Dispatch.DfsColonIffToken | lib/rxfileio.rb:398 | for an address written `t://`, the `^dfs:` test holds exactly when `t` is dfs |
| Dispatch.WriteableSchemes | lib/rxfileio.rb:392-398 | a single-line address with token t is writeable exactly when t is dfs |
| Session.ChdirStep | lib/rxfileio.rb:115-135 | `file://` or an existing local parent resets `@fs` to local; else `dfs://` stores the host or, with no host, raises TypeError; else nothing changes; an error never changes `@fs` |
| Session.TouchRoute | lib/rxfileio.rb:348-363 | in a DFS session the target is `@fs + pwd + '/' + filename` on DFS; otherwise DfsFile exactly for a dfs token and FileUtils for everything else, ftp included |
| Session.ChmodRoute | lib/rxfileio.rb:78-89 | nothing for a non-integer mode or non-string path; else DfsFile exactly for `dfs://` or a DFS session, FileUtils otherwise |
| Session.MkdirPRoute | lib/rxfileio.rb:164-172 | DfsFile.mkdir_p exactly for `dfs://` or a DFS session, FileUtils.mkdir_p otherwise |
| Session.FsText | lib/rxfileio.rb:76-130 | the text of `@fs` (`"local"` for the symbol, `"dfs://" + host` otherwise) has at least five characters, so `[0..2]` always takes three |
| Session.OnDfsIffHost | lib/rxfileio.rb:83 | the `@fs[0..2] == 'dfs'` test fails on `:local` (whose text starts `loc`) and holds on every `'dfs://' + host` |
| Session.ChdirDfs | lib/rxfileio.rb:127-131 | chdir to `dfs://host/dir` (no local parent) stores `dfs://host` and calls DfsFile.chdir |
| Session.ChdirDfsThenTouch | lib/rxfileio.rb:350-351 | after chdir to `dfs://host/dir`, touch of any name goes to `dfs://host + pwd + '/' + name` |
| Session.ChdirFileThenTouch | lib/rxfileio.rb:122-124 | chdir to `file://...` returns the session to local from any state, and a later touch of an unprefixed name is local |
| Session.FileIO.constructor | lib/rxfileio.rb:76 | `@fs` starts as `:local` |
| Session.FileIO.Chdir | lib/rxfileio.rb:115-135 | the new `@fs` and the result are those of `ChdirStep` on the old `@fs` |
| Session.FileIO.Touch | lib/rxfileio.rb:348-363 | returns `TouchRoute` of the current `@fs` and DfsFile.pwd |
| Session.FileIO.Chmod | lib/rxfileio.rb:78-89 | returns `ChmodRoute` of the current `@fs` |
| Session.FileIO.MkdirP | lib/rxfileio.rb:164-172 | returns `MkdirPRoute` of the current `@fs` |
| Removal.DirectoryWarning | lib/rxfileio.rb:274 | the warning is `RXFileIO#rm: `, the entry, then ` is a Directory` |
| Removal.WildcardOfName | lib/rxfileio.rb:267 | a bare name is a glob batch exactly when it holds a `*` |
| Removal.WildcardOfJoin | lib/rxfileio.rb:267 | only the last component decides whether a name is a glob batch |
| Removal.IsolatedBatchUnique | lib/rxfileio.rb:269-277 | the batch description determines every attempt |
| Removal.FailuresDoNotStopBatch | lib/rxfileio.rb:271-275 | which entries raise changes only the warnings, never which removals are attempted |
| Removal.RemoveEach | lib/rxfileio.rb:269-277 | one attempt per glob match, in order, each with its own removal call; a warning exactly for the entries that raised |
| Removal.Rm | lib/rxfileio.rb:258-285 | dfs token to DfsFile.rm, ftp token to MyMediaFTP.rm; else a basename with `*` is a glob batch of FileUtils.rm, and anything else is one FileUtils.rm |
| Removal.RmR | lib/rxfileio.rb:287-314 | dfs token to DfsFile.rm_r with force; everything else, ftp included, is local: a glob batch of FileUtils.rm_r for a `*` basename, else one call; never FTP |
| Locations.SchemeAddress | lib/rxfileio.rb:320 | a one-line `dfs://` or `ftp://` address has that token, matches only its own anchor, not `file://`, and contains `://` |
| Locations.DfsAddressDispatch | lib/rxfileio.rb:91-398 | a one-line `dfs://` address goes to DfsFile from cp (either destination), write, ru and ru_r, and is writeable |
| Locations.DfsAddressProbed | lib/rxfileio.rb:137-162 | when its dirname is not local, ls and mkdir send a `dfs://` address to DfsFile |
| Locations.DfsAddressSession | lib/rxfileio.rb:83-356 | chmod, mkdir_p and touch send a `dfs://` address to DfsFile in every session |
| Locations.DfsAddressRead | lib/rxfileio.rb:225-228 | read of a `dfs://` address is DfsFile.read of it |
| Locations.FtpAddressDispatch | lib/rxfileio.rb:91-398 | an `ftp://` address goes to FTP from cp and write, to DirToXML from ru and ru_r, and is not writeable |
| Locations.FtpAddressProbed | lib/rxfileio.rb:137-162 | when its dirname is not local, ls sends an `ftp://` address to FTP and mkdir ignores it |
| Locations.FtpAddressLocalSession | lib/rxfileio.rb:83-360 | in a local session chmod, mkdir_p and touch hand an `ftp://` address to FileUtils |
| Locations.FtpAddressRead | lib/rxfileio.rb:230-232 | read of an `ftp://` address is MyMediaFTP.read of it |

## Left out

- Backend behaviour: DfsFile, MyMediaFTP, RestClient, GPDRequest, FileUtils, Dir, File and DirToXML are foreign code whose effects are outside this model. Each operation returns the call it would make; the answers it depends on are `Env` parameters.
- Exceptions raised inside a backend are not modelled, except a removal in a glob batch raising, which is the only one RXFileIO catches. A removal that raises something other than a StandardError escapes the bare `rescue`; the model does not distinguish exception classes.
- RestClient raising on 4xx statuses, and its numeric response code, are foreign behaviour. The model follows the source: it compares the code, as a string, with `'404'` and `'401'`.
- Sniffer.Fetch: `File.expand_path` lives inside the `fileRead` oracle, and `force_encoding('UTF-8')` is the identity on the modelled strings.
- `File.exists?` (removed in Ruby 3.2) is the `localExists` oracle, as in the Ruby versions the code was written for.
- The FileX and DirX forwarding shims (lib/rxfileio.rb:14-65) only delegate, and `FileX.directory?` depends on `FileX.filetype`, which is not part of this model.
- mv, pwd and zip (lib/rxfileio.rb:174-183, 405-407) delegate unconditionally and make no decision.
- Debug `puts` output and the colour of warnings are not modelled; the warning text itself is.
- Default arguments are not modelled: callers pass every argument. This covers `Time.now` for touch, `'*'` for ls, `'.'` for ru and ru_r, `force: false` for rm_r and `h={}` for read (the model's `Options` with no credentials).
- Dispatch.Write: `s` defaults to nil in the source, and a nil `s` is handed to the backend as is; the model's `s` is a string, so writing nil is not modelled.
- The Rexle branch of read is the `Document` input variant: the runtime class test is not modelled.
- Sniffer.Read: the `:debug` option only prints, so `Options` holds only username and password.
- chmod's `is_a?` tests are modelled by `Option` arguments: a value of the wrong class is `None`.
- FilePaths.Dirname: its own contract states only that the result is never empty; its value is pinned down by FilePaths.DirnameOfName and FilePaths.DirnameOfJoin for plain names and joined paths, not for every input.
- Removal.RemoveEach: whether a removal raises is an oracle on the entry's index and name; the files it removes are not tracked, so a later entry can never see the effect of an earlier one.
- Concurrency: `@fs` is class-level state shared by every caller; the model has one session object.
