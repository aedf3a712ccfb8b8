/** `RXFileIO.read`: decides whether its argument is a document, a URL, a
    remote or local path, or literal text, by an ordered chain of checks, and
    returns the content together with a tag naming the source. */
module Sniffer {
  import opened RubyText
  import Routes

  /** The argument of read: nil, a parsed Rexle document, or a string. */
  datatype Input = Nil | Document(xml: string) | Str(text: string)

  /** The second element of read's result: :rexle, :xml, :url, :dfs, :ftp, :file, :text, :unknown. */
  datatype Tag = Rexle | Xml | Url | Dfs | Ftp | File | Text | Unknown

  datatype Content = Content(text: string, tag: Tag)

  /** The `:username` and `:password` entries of read's option hash. */
  datatype Options = Options(username: Option<string>, password: Option<string>)

  /** What read does with a string: hand it back with a tag, or fetch from a backend. */
  datatype Plan =
    | Verbatim(tag: Tag)
    | HttpGet(url: string)
    | DfsRead(path: string)
    | FtpRead(path: string)
    | FileRead(path: string)

  /** The regular expression `^<(\?xml|[^\?])` matches at `p` of `t`. */
  predicate XmlTagAt(t: string, p: int) {
    LineStart(t, p) && p + 1 < |t| && t[p] == '<' && (t[p + 1] != '?' || MatchAt(t, p + 1, "?xml"))
  }

  /** `x.strip[/^<(\?xml|[^\?])/]`: some line of the stripped input opens with
      `<?xml` or with `<` and any character but `?`. */
  predicate LooksLikeXml(x: string) {
    var t := Strip(x);
    exists p | 0 <= p < |t| :: XmlTagAt(t, p)
  }

  /** `x[/^https?:\/\//]` */
  predicate IsHttpUrl(x: string) {
    AnchoredMatch(x, "http://") || AnchoredMatch(x, "https://")
  }

  /** `x.sub(%r{^file://}, '')` on a single line, where `^` can only match at the start. */
  function DropFileScheme(x: string): (r: string)
    ensures HasPrefix(x, "file://") ==> x == "file://" + r
    ensures !HasPrefix(x, "file://") ==> r == x
  {
    if HasPrefix(x, "file://") then x[7..] else x
  }

  /** The chain of checks of read for a string, first match wins. */
  function Sniff(x: string, env: Routes.Env): (p: Plan)
    ensures LooksLikeXml(x) ==> p == Verbatim(Xml)
    ensures !LooksLikeXml(x) && LineCount(x) != 1 ==> p == Verbatim(Unknown)
    ensures p.HttpGet? ==> p.url == x && IsHttpUrl(x)
    ensures p.DfsRead? ==> p.path == x && (AnchoredMatch(x, "dfs://") || env.dfsExists(x))
    ensures p.FtpRead? ==> p.path == x && AnchoredMatch(x, "ftp://")
    ensures p.FileRead? ==> p.path == DropFileScheme(x) && (AnchoredMatch(x, "file://") || env.localExists(x))
    ensures p == Verbatim(Text) ==> ContainsSpace(x)
    ensures p.Verbatim? ==> p.tag in {Xml, Text, Unknown}
    ensures !p.Verbatim? ==> LineCount(x) == 1
  {
    if LooksLikeXml(x) then Verbatim(Xml)
    else if LineCount(x) == 1 then
      if IsHttpUrl(x) then HttpGet(x)
      else if AnchoredMatch(x, "dfs://") then DfsRead(x)
      else if AnchoredMatch(x, "ftp://") then FtpRead(x)
      else if AnchoredMatch(x, "file://") || env.localExists(x) then FileRead(DropFileScheme(x))
      else if ContainsSpace(x) then Verbatim(Text)
      else if env.dfsExists(x) then DfsRead(x)
      else Verbatim(Unknown)
    else Verbatim(Unknown)
  }

  /** One check of the chain: when `guard` holds and no earlier one did, read follows `plan`. */
  datatype Rule = Rule(guard: bool, plan: Plan)

  /** The checks of read in the order the source makes them. */
  function Rules(x: string, env: Routes.Env): seq<Rule> {
    [ Rule(LooksLikeXml(x), Verbatim(Xml)),
      Rule(LineCount(x) != 1, Verbatim(Unknown)),
      Rule(IsHttpUrl(x), HttpGet(x)),
      Rule(AnchoredMatch(x, "dfs://"), DfsRead(x)),
      Rule(AnchoredMatch(x, "ftp://"), FtpRead(x)),
      Rule(AnchoredMatch(x, "file://") || env.localExists(x), FileRead(DropFileScheme(x))),
      Rule(ContainsSpace(x), Verbatim(Text)),
      Rule(env.dfsExists(x), DfsRead(x)) ]
  }

  /** The plan of the first rule whose guard holds, `default` if none does. */
  function FirstMatch(rules: seq<Rule>, default: Plan): Plan {
    if rules == [] then default
    else if rules[0].guard then rules[0].plan
    else FirstMatch(rules[1..], default)
  }

  lemma {:induction false} FirstMatchSelects(rules: seq<Rule>, default: Plan, i: int)
    requires 0 <= i < |rules| && rules[i].guard
    requires forall j | 0 <= j < i :: !rules[j].guard
    ensures FirstMatch(rules, default) == rules[i].plan
  {
    if i > 0 {
      assert !rules[0].guard;
      FirstMatchSelects(rules[1..], default, i - 1);
    }
  }

  lemma FirstMatchCons(r: Rule, rest: seq<Rule>, default: Plan)
    ensures FirstMatch([r] + rest, default) == if r.guard then r.plan else FirstMatch(rest, default)
  {
    assert ([r] + rest)[1..] == rest;
  }

  /** The if-chain of read is exactly "first matching rule of the table, else :unknown". */
  lemma SniffIsFirstMatch(x: string, env: Routes.Env)
    ensures Sniff(x, env) == FirstMatch(Rules(x, env), Verbatim(Unknown))
  {
    var rs, d := Rules(x, env), Verbatim(Unknown);
    var t7 := [rs[7]];
    var t6 := [rs[6]] + t7;
    var t5 := [rs[5]] + t6;
    var t4 := [rs[4]] + t5;
    var t3 := [rs[3]] + t4;
    var t2 := [rs[2]] + t3;
    var t1 := [rs[1]] + t2;
    assert rs == [rs[0]] + t1;
    FirstMatchCons(rs[0], t1, d);
    FirstMatchCons(rs[1], t2, d);
    FirstMatchCons(rs[2], t3, d);
    FirstMatchCons(rs[3], t4, d);
    FirstMatchCons(rs[4], t5, d);
    FirstMatchCons(rs[5], t6, d);
    FirstMatchCons(rs[6], t7, d);
    FirstMatchCons(rs[7], [], d);
    assert t7 == [rs[7]] + [];
  }

  /** First match wins: read follows rule `i` exactly when its guard is the first that holds. */
  lemma SniffFirstMatchWins(x: string, env: Routes.Env, i: int)
    requires 0 <= i < |Rules(x, env)| && Rules(x, env)[i].guard
    requires forall j | 0 <= j < i :: !Rules(x, env)[j].guard
    ensures Sniff(x, env) == Rules(x, env)[i].plan
  {
    SniffIsFirstMatch(x, env);
    FirstMatchSelects(Rules(x, env), Verbatim(Unknown), i);
  }

  /** The client read uses: GPDRequest only when both credentials are given. */
  function ClientFor(opts: Options): (c: Routes.Client)
    ensures c.Authenticated? <==> opts.username.Some? && opts.password.Some?
    ensures c.Authenticated? ==> c.username == opts.username.value && c.password == opts.password.value
  {
    match (opts.username, opts.password)
    case (Some(u), Some(p)) => Routes.Authenticated(u, p)
    case _ => Routes.Anonymous
  }

  const NilMessage := "nil found, expected a string"

  /** Carry out a plan for the string `x`. */
  function Fetch(plan: Plan, x: string, opts: Options, env: Routes.Env): (r: Routes.Result<Content>)
    ensures plan.Verbatim? ==> r == Routes.Ok(Content(x, plan.tag))
    ensures plan.HttpGet? ==>
              var resp := env.http(ClientFor(opts), plan.url);
              && (resp.code == "404" ==> r == Routes.Err(Routes.IOException("404 " + plan.url + " not found")))
              && (resp.code == "401" ==> r == Routes.Err(Routes.IOException("401 " + plan.url + " unauthorized access")))
              && (resp.code != "404" && resp.code != "401" ==> r == Routes.Ok(Content(resp.body, Url)))
    ensures plan.DfsRead? ==> r == Routes.Ok(Content(env.dfsRead(plan.path), Dfs))
    ensures plan.FtpRead? ==> r == Routes.Ok(Content(env.ftpRead(plan.path), Ftp))
    ensures plan.FileRead? ==> r == Routes.Ok(Content(env.fileRead(plan.path), File))
  {
    match plan
    case Verbatim(tag) => Routes.Ok(Content(x, tag))
    case HttpGet(url) =>
      var resp := env.http(ClientFor(opts), url);
      if resp.code == "404" then Routes.Err(Routes.IOException("404 " + url + " not found"))
      else if resp.code == "401" then Routes.Err(Routes.IOException("401 " + url + " unauthorized access"))
      else Routes.Ok(Content(resp.body, Url))
    case DfsRead(path) => Routes.Ok(Content(env.dfsRead(path), Dfs))
    case FtpRead(path) => Routes.Ok(Content(env.ftpRead(path), Ftp))
    case FileRead(path) => Routes.Ok(Content(env.fileRead(path), File))
  }

  /** `RXFileIO.read(x, h)` */
  function Read(input: Input, opts: Options, env: Routes.Env): (r: Routes.Result<Content>)
    ensures input.Nil? ==> r == Routes.Err(Routes.IOException(NilMessage))
    ensures input.Document? ==> r == Routes.Ok(Content(input.xml, Rexle))
    ensures input.Str? && LooksLikeXml(input.text) ==> r == Routes.Ok(Content(input.text, Xml))
    ensures input.Str? && !LooksLikeXml(input.text) && LineCount(input.text) != 1 ==>
              r == Routes.Ok(Content(input.text, Unknown))
    ensures r.Err? ==> input.Nil? || (input.Str? && LineCount(input.text) == 1 && IsHttpUrl(input.text))
  {
    match input
    case Nil => Routes.Err(Routes.IOException(NilMessage))
    case Document(xml) => Routes.Ok(Content(xml, Rexle))
    case Str(x) => Fetch(Sniff(x, env), x, opts, env)
  }

  /** Inline XML and multi-line text are handed back without asking any backend:
      the result is the same whatever the backends would answer. */
  lemma ReadGatesIgnoreBackends(x: string, opts: Options, e1: Routes.Env, e2: Routes.Env)
    requires LooksLikeXml(x) || LineCount(x) != 1
    ensures Read(Str(x), opts, e1) == Read(Str(x), opts, e2)
    ensures Read(Str(x), opts, e1).Ok? && Read(Str(x), opts, e1).value.text == x
  {
  }

  /** A single line that does not open with `<` or whitespace is never taken for XML. */
  lemma ReferenceIsNotXml(x: string)
    requires LineCount(x) == 1 && x[0] != '<' && !IsStripped(x[0])
    ensures !LooksLikeXml(x)
  {
    var t := Strip(x);
    assert FirstKept(x, 0) == 0;
    assert t == x[..LastKept(x, 0, |x|)];
    forall p | 0 <= p < |t| ensures !XmlTagAt(t, p) {
      if p > 0 {
        assert t[p - 1] == x[p - 1];
        NoInnerNewline(x, p - 1);
      }
    }
  }

  /** On one line with no whitespace at either end, the XML test looks only at the
      start: `<` followed by any character but `?`, or `<?xml`. */
  lemma SingleLineXml(x: string)
    requires LineCount(x) == 1 && !IsStripped(x[0]) && !IsStripped(x[|x| - 1])
    ensures LooksLikeXml(x) <==> |x| > 1 && x[0] == '<' && (x[1] != '?' || HasPrefix(x, "<?xml"))
  {
    StripKeeps(x);
    if LooksLikeXml(x) {
      var p :| 0 <= p < |x| && XmlTagAt(x, p);
      if p > 0 {
        NoInnerNewline(x, p - 1);
      }
      if x[1] == '?' {
        assert x[..5] == [x[0]] + x[1..5];
      }
    }
    if |x| > 1 && x[0] == '<' && (x[1] != '?' || HasPrefix(x, "<?xml")) {
      if x[1] == '?' {
        assert x[1..5] == x[..5][1..];
      }
      assert XmlTagAt(x, 0);
    }
  }

  /** On one line, `^https?://` is a prefix test. */
  lemma SingleLineHttp(x: string)
    requires LineCount(x) <= 1
    ensures IsHttpUrl(x) <==> HasPrefix(x, "http://") || HasPrefix(x, "https://")
  {
    SingleLineAnchor(x, "http://");
    SingleLineAnchor(x, "https://");
  }

  /** A single-line reference: one line, not opening with `<` or whitespace. */
  predicate Reference(x: string) {
    LineCount(x) == 1 && x[0] != '<' && !IsStripped(x[0])
  }

  /** A single-line `dfs://` reference is read from DFS, whatever exists locally. */
  lemma ReadDfsReference(x: string, opts: Options, env: Routes.Env)
    requires Reference(x) && HasPrefix(x, "dfs://")
    ensures Read(Str(x), opts, env) == Routes.Ok(Content(env.dfsRead(x), Dfs))
  {
    assert x[0] == 'd';
    ReferenceIsNotXml(x);
    SingleLineAnchor(x, "http://");
    SingleLineAnchor(x, "https://");
    assert !IsHttpUrl(x);
    SingleLineAnchor(x, "dfs://");
    assert Sniff(x, env) == DfsRead(x);
  }

  /** A single-line `ftp://` reference is read over FTP. */
  lemma ReadFtpReference(x: string, opts: Options, env: Routes.Env)
    requires Reference(x) && HasPrefix(x, "ftp://")
    ensures Read(Str(x), opts, env) == Routes.Ok(Content(env.ftpRead(x), Ftp))
  {
    assert x[0] == 'f' && x[1] == 't';
    ReferenceIsNotXml(x);
    SingleLineAnchor(x, "http://");
    SingleLineAnchor(x, "https://");
    assert !IsHttpUrl(x);
    SingleLineAnchor(x, "dfs://");
    SingleLineAnchor(x, "ftp://");
    assert !AnchoredMatch(x, "dfs://") && AnchoredMatch(x, "ftp://");
    assert Sniff(x, env) == FtpRead(x);
  }

  /** A single-line `file://` reference is read locally from the path after the prefix,
      and DFS is never probed. */
  lemma ReadFileReference(x: string, opts: Options, env: Routes.Env)
    requires Reference(x) && HasPrefix(x, "file://")
    ensures Read(Str(x), opts, env) == Routes.Ok(Content(env.fileRead(x[7..]), File))
  {
    assert x[0] == 'f' && x[1] == 'i';
    ReferenceIsNotXml(x);
    SingleLineAnchor(x, "http://");
    SingleLineAnchor(x, "https://");
    assert !IsHttpUrl(x);
    SingleLineAnchor(x, "dfs://");
    SingleLineAnchor(x, "ftp://");
    SingleLineAnchor(x, "file://");
    assert !AnchoredMatch(x, "dfs://") && !AnchoredMatch(x, "ftp://") && AnchoredMatch(x, "file://");
    assert Sniff(x, env) == FileRead(x[7..]);
  }

  /** The order of read for a single line that is not XML and has no scheme prefix:
      local file, then text, then a DFS path, then :unknown. */
  lemma ReadReferenceBare(x: string, opts: Options, env: Routes.Env)
    requires LineCount(x) == 1 && !LooksLikeXml(x) && !HasScheme(x)
    ensures env.localExists(x) ==> Read(Str(x), opts, env) == Routes.Ok(Content(env.fileRead(x), File))
    ensures !env.localExists(x) && ContainsSpace(x) ==> Read(Str(x), opts, env) == Routes.Ok(Content(x, Text))
    ensures !env.localExists(x) && !ContainsSpace(x) && env.dfsExists(x) ==>
              Read(Str(x), opts, env) == Routes.Ok(Content(env.dfsRead(x), Dfs))
    ensures !env.localExists(x) && !ContainsSpace(x) && !env.dfsExists(x) ==>
              Read(Str(x), opts, env) == Routes.Ok(Content(x, Unknown))
  {
    SingleLineAnchor(x, "http://");
    SingleLineAnchor(x, "https://");
    SingleLineAnchor(x, "dfs://");
    SingleLineAnchor(x, "ftp://");
    SingleLineAnchor(x, "file://");
  }

  /** The five prefixes read recognises before it probes the backends. */
  predicate HasScheme(x: string) {
    HasPrefix(x, "http://") || HasPrefix(x, "https://") || HasPrefix(x, "dfs://")
      || HasPrefix(x, "ftp://") || HasPrefix(x, "file://")
  }

  /** Status handling of a URL: 404 and 401 raise, any other status returns the body. */
  lemma ReadUrlStatus(x: string, opts: Options, env: Routes.Env)
    requires LineCount(x) == 1 && (HasPrefix(x, "http://") || HasPrefix(x, "https://"))
    ensures var resp := env.http(ClientFor(opts), x);
            && (resp.code == "404" <==> Read(Str(x), opts, env) == Routes.Err(Routes.IOException("404 " + x + " not found")))
            && (resp.code == "401" <==> Read(Str(x), opts, env) == Routes.Err(Routes.IOException("401 " + x + " unauthorized access")))
            && (resp.code != "404" && resp.code != "401" <==> Read(Str(x), opts, env) == Routes.Ok(Content(resp.body, Url)))
  {
    assert x[0] == 'h';
    ReferenceIsNotXml(x);
    SingleLineAnchor(x, "http://");
    SingleLineAnchor(x, "https://");
    assert ("404 " + x + " not found")[1] == '0';
    assert ("401 " + x + " unauthorized access")[1] == '0';
    assert ("404 " + x + " not found")[2] != ("401 " + x + " unauthorized access")[2];
  }

  /** `""` has no lines: read returns it untouched as :unknown. */
  lemma ReadEmpty(opts: Options, env: Routes.Env)
    ensures Read(Str(""), opts, env) == Routes.Ok(Content("", Unknown))
  {
    assert Strip("") == "";
  }

  /** `"abc\n"` is one line, so read treats it as a reference; having whitespace,
      it comes back as :text unless a local file of that name exists. */
  lemma ReadTrailingNewline(opts: Options, env: Routes.Env)
    requires !env.localExists("abc\n")
    ensures Read(Str("abc\n"), opts, env) == Routes.Ok(Content("abc\n", Text))
  {
    var x := "abc\n";
    assert CountNewlines(x[3..]) == 1;
    assert CountNewlines(x) == 1;
    assert LineCount(x) == 1;
    ReadReferenceBare(x, opts, env);
    assert IsSpace(x[3]);
  }

  /** `^` matches at every line: text whose second line opens a tag is XML. */
  lemma ReadXmlOnSecondLine(opts: Options, env: Routes.Env)
    ensures Read(Str("note\n<b/>"), opts, env) == Routes.Ok(Content("note\n<b/>", Xml))
  {
    var x := "note\n<b/>";
    StripKeeps(x);
    assert XmlTagAt(x, 5);
  }
}
