/** Ruby string and regular-expression primitives that the routing layer of
    RXFileIO is built from, with Ruby's own semantics:
    - `^` anchors at the start of EVERY line, not only at the start of the string;
    - `\w` is the ASCII word class `[a-zA-Z0-9_]`, `\s` is `[ \t\n\v\f\r]`;
    - `String#lines` splits after each newline, so `"abc\n"` is one line and `""` none;
    - `String#strip` removes NUL and `\s` characters at both ends. */
module RubyText {

  datatype Option<T> = None | Some(value: T)

  /** `\w` */
  predicate IsWordChar(c: char) {
    ('a' <= c <= 'z') || ('A' <= c <= 'Z') || ('0' <= c <= '9') || c == '_'
  }

  /** `\s`: space, tab, newline, vertical tab, form feed, carriage return. */
  predicate IsSpace(c: char) {
    c == ' ' || c == '\t' || c == '\n' || c == '\r' || c as int == 0x0B || c as int == 0x0C
  }

  /** The characters `String#strip` removes. */
  predicate IsStripped(c: char) {
    c == '\0' || IsSpace(c)
  }

  predicate HasPrefix(s: string, pat: string) {
    |pat| <= |s| && s[..|pat|] == pat
  }

  /** `pat` occurs in `s` at position `p`. */
  predicate MatchAt(s: string, p: int, pat: string) {
    0 <= p && p + |pat| <= |s| && s[p..p + |pat|] == pat
  }

  /** Position `p` is where `^` matches: the start of the string or just after a newline. */
  predicate LineStart(s: string, p: int) {
    0 <= p <= |s| && (p == 0 || s[p - 1] == '\n')
  }

  /** `s[/^pat/]` is truthy: `pat` starts some line of `s`. */
  predicate AnchoredMatch(s: string, pat: string) {
    exists p | 0 <= p <= |s| :: LineStart(s, p) && MatchAt(s, p, pat)
  }

  /** `s =~ /pat/` for a literal `pat`: it occurs anywhere in `s`. */
  predicate Contains(s: string, pat: string) {
    exists p | 0 <= p <= |s| :: MatchAt(s, p, pat)
  }

  /** `s =~ /\s/` */
  predicate ContainsSpace(s: string) {
    exists i | 0 <= i < |s| :: IsSpace(s[i])
  }

  /** `^pat` sits between a prefix test and an unanchored search: a string that
      starts with `pat` matches it, and a match is an occurrence. */
  lemma AnchoredBetween(s: string, pat: string)
    ensures HasPrefix(s, pat) ==> AnchoredMatch(s, pat)
    ensures AnchoredMatch(s, pat) ==> Contains(s, pat)
    ensures Contains(s, pat) ==> |pat| <= |s|
  {
    if HasPrefix(s, pat) {
      assert LineStart(s, 0) && MatchAt(s, 0, pat);
    }
  }

  /** `=~ /\s/` is a search for any of the six one-character strings `\s` stands for. */
  lemma SpaceIsContained(s: string)
    ensures ContainsSpace(s) <==>
              Contains(s, " ") || Contains(s, "\t") || Contains(s, "\n") || Contains(s, "\r")
              || Contains(s, [0x0B as char]) || Contains(s, [0x0C as char])
  {
    if ContainsSpace(s) {
      var i :| 0 <= i < |s| && IsSpace(s[i]);
      assert s[i..i + 1] == [s[i]];
      assert MatchAt(s, i, [s[i]]);
    }
    if Contains(s, " ") { OneCharMatch(s, ' '); }
    if Contains(s, "\t") { OneCharMatch(s, '\t'); }
    if Contains(s, "\n") { OneCharMatch(s, '\n'); }
    if Contains(s, "\r") { OneCharMatch(s, '\r'); }
    if Contains(s, [0x0B as char]) { OneCharMatch(s, 0x0B as char); }
    if Contains(s, [0x0C as char]) { OneCharMatch(s, 0x0C as char); }
  }

  /** A match of the one-character pattern `[c]`, for a `\s` character `c`, is a space in `s`. */
  lemma OneCharMatch(s: string, c: char)
    requires IsSpace(c) && Contains(s, [c])
    ensures ContainsSpace(s)
  {
    var p :| 0 <= p <= |s| && MatchAt(s, p, [c]);
    assert s[p..p + 1][0] == s[p];
  }

  function CountNewlines(s: string): nat {
    if s == [] then 0 else (if s[0] == '\n' then 1 else 0) + CountNewlines(s[1..])
  }

  /** `s.lines.length`: one line per newline, plus an unterminated last line if any;
      only `""` has no line at all. */
  function LineCount(s: string): (n: nat)
    ensures n == 0 <==> s == []
  {
    if s != [] && s[|s| - 1] == '\n' then
      NewlineIsCounted(s, |s| - 1);
      CountNewlines(s)
    else
      CountNewlines(s) + (if s != [] then 1 else 0)
  }

  lemma {:induction false} CountNewlinesAppend(a: string, b: string)
    ensures CountNewlines(a + b) == CountNewlines(a) + CountNewlines(b)
  {
    if a != [] {
      assert (a + b)[1..] == a[1..] + b;
      CountNewlinesAppend(a[1..], b);
    } else {
      assert a + b == b;
    }
  }

  lemma {:induction false} NewlineIsCounted(s: string, i: int)
    requires 0 <= i < |s| && s[i] == '\n'
    ensures CountNewlines(s) >= 1
  {
    if i > 0 {
      NewlineIsCounted(s[1..], i - 1);
    }
  }

  lemma {:induction false} NoNewlineNoCount(s: string)
    requires forall i | 0 <= i < |s| :: s[i] != '\n'
    ensures CountNewlines(s) == 0
  {
    if s != [] {
      NoNewlineNoCount(s[1..]);
    }
  }

  /** A string with at most one line has no newline except possibly its last character. */
  lemma NoInnerNewline(s: string, i: int)
    requires LineCount(s) <= 1
    requires 0 <= i < |s| - 1
    ensures s[i] != '\n'
  {
    if s[i] == '\n' {
      var a, b := s[..i + 1], s[i + 1..];
      assert s == a + b;
      CountNewlinesAppend(a, b);
      NewlineIsCounted(a, i);
      if s[|s| - 1] == '\n' {
        NewlineIsCounted(b, |b| - 1);
      }
      assert false;
    }
  }

  /** A non-empty string with no newline before its last character is exactly one
      line, whether or not that line is terminated (`"abc"` and `"abc\n"` alike). */
  lemma OneLine(s: string)
    requires s != [] && forall i | 0 <= i < |s| - 1 :: s[i] != '\n'
    ensures LineCount(s) == 1
  {
    var a, c := s[..|s| - 1], s[|s| - 1];
    assert s == a + [c];
    NoNewlineNoCount(a);
    CountNewlinesAppend(a, [c]);
    assert [c][1..] == [];
  }

  /** On a string of at most one line, `^pat` can only match at the very start. */
  lemma SingleLineAnchor(s: string, pat: string)
    requires LineCount(s) <= 1 && pat != []
    ensures AnchoredMatch(s, pat) <==> HasPrefix(s, pat)
  {
    if HasPrefix(s, pat) {
      assert LineStart(s, 0) && MatchAt(s, 0, pat);
    }
    if AnchoredMatch(s, pat) {
      var p :| 0 <= p <= |s| && LineStart(s, p) && MatchAt(s, p, pat);
      if p > 0 {
        NoInnerNewline(s, p - 1);
      }
      assert s[..|pat|] == s[p..p + |pat|];
    }
  }

  /** Where `String#strip` stops cutting at the front: the first position from `i`
      whose character is kept. */
  function FirstKept(s: string, i: nat): (k: nat)
    requires i <= |s|
    ensures i <= k <= |s|
    ensures forall m | i <= m < k :: IsStripped(s[m])
    ensures k < |s| ==> !IsStripped(s[k])
    decreases |s| - i
  {
    if i < |s| && IsStripped(s[i]) then FirstKept(s, i + 1) else i
  }

  /** Where `String#strip` stops cutting at the back: the end of the last kept
      character below `j`, not going under `lo`. */
  function LastKept(s: string, lo: nat, j: nat): (k: nat)
    requires lo <= j <= |s|
    ensures lo <= k <= j
    ensures forall m | k <= m < j :: IsStripped(s[m])
    ensures k > lo ==> !IsStripped(s[k - 1])
    decreases j
  {
    if j > lo && IsStripped(s[j - 1]) then LastKept(s, lo, j - 1) else j
  }

  /** Every character of `s` outside `s[i..j]` is one strip removes. */
  predicate StrippedOutside(s: string, i: nat, j: nat)
    requires i <= j <= |s|
  {
    && (forall k | 0 <= k < i :: IsStripped(s[k]))
    && (forall k | j <= k < |s| :: IsStripped(s[k]))
  }

  /** `String#strip`: the middle of `s` between the stripped characters at both ends. */
  function Strip(s: string): (r: string)
    ensures exists i, j | 0 <= i <= j <= |s| :: r == s[i..j] && StrippedOutside(s, i, j)
    ensures r != [] ==> !IsStripped(r[0]) && !IsStripped(r[|r| - 1])
  {
    var i := FirstKept(s, 0);
    var j := LastKept(s, i, |s|);
    assert StrippedOutside(s, i, j);
    s[i..j]
  }

  /** Strip is the identity on a string whose two ends are not whitespace. */
  lemma StripKeeps(s: string)
    requires s != [] && !IsStripped(s[0]) && !IsStripped(s[|s| - 1])
    ensures Strip(s) == s
  {
    assert FirstKept(s, 0) == 0;
    assert LastKept(s, 0, |s|) == |s|;
    assert s[0..|s|] == s;
  }

  /** Length of the maximal run of word characters that starts at `p`. */
  function WordRun(s: string, p: nat): (n: nat)
    requires p <= |s|
    ensures p + n <= |s|
    ensures forall i | p <= i < p + n :: IsWordChar(s[i])
    ensures p + n < |s| ==> !IsWordChar(s[p + n])
    decreases |s| - p
  {
    if p < |s| && IsWordChar(s[p]) then 1 + WordRun(s, p + 1) else 0
  }

  /** The regular expression `^\w+(?=:\/\/)` matches at `p`. */
  predicate SchemeAt(s: string, p: nat)
    requires p <= |s|
  {
    LineStart(s, p) && WordRun(s, p) > 0 && MatchAt(s, p + WordRun(s, p), "://")
  }

  /** The leftmost position at or after `p` where `^\w+(?=:\/\/)` matches. */
  function FirstSchemeFrom(s: string, p: nat): (r: Option<nat>)
    requires p <= |s|
    ensures r.Some? ==> p <= r.value <= |s| && SchemeAt(s, r.value)
    ensures r.Some? ==> forall q: nat | p <= q < r.value :: !SchemeAt(s, q)
    ensures r.None? ==> forall q: nat | p <= q <= |s| :: !SchemeAt(s, q)
    decreases |s| - p
  {
    if SchemeAt(s, p) then Some(p)
    else if p == |s| then None
    else FirstSchemeFrom(s, p + 1)
  }

  /** `s[/^\w+(?=:\/\/)/]`: the run of word characters that opens the first line
      written `word://...`, or None when no line is. */
  function SchemeToken(s: string): (r: Option<string>)
    ensures r.None? <==> forall q: nat | q <= |s| :: !SchemeAt(s, q)
    ensures r.Some? ==> r.value != [] && forall i | 0 <= i < |r.value| :: IsWordChar(r.value[i])
    ensures r.Some? ==>
              exists p: nat | p <= |s| ::
                && SchemeAt(s, p)
                && (forall q: nat | q < p :: !SchemeAt(s, q))
                && r.value == s[p..p + WordRun(s, p)]
  {
    match FirstSchemeFrom(s, 0)
    case None => None
    case Some(p) => Some(s[p..p + WordRun(s, p)])
  }

  /** The leftmost scheme position from `p` on is `q` when the pattern matches at `q` and nowhere before. */
  lemma {:induction false} FirstSchemeIs(s: string, p: nat, q: nat)
    requires p <= q <= |s| && SchemeAt(s, q)
    requires forall i: nat | p <= i < q :: !SchemeAt(s, i)
    ensures FirstSchemeFrom(s, p) == Some(q)
    decreases q - p
  {
    if p < q {
      FirstSchemeIs(s, p + 1, q);
    }
  }

  /** A token comes from the first line written `word://`, not from the first line:
      earlier lines without a scheme are skipped. */
  lemma TokenFromLaterLine()
    ensures SchemeToken("a b\nftp://x") == Some("ftp")
  {
    var s := "a b\nftp://x";
    assert s[0] == 'a' && s[1] == ' ' && s[2] == 'b' && s[3] == '\n' && s[7] == ':';
    assert WordRun(s, 1) == 0;
    assert WordRun(s, 0) == 1;
    assert !MatchAt(s, 1, "://");
    assert !LineStart(s, 1) && !LineStart(s, 2) && !LineStart(s, 3);
    assert WordRun(s, 7) == 0;
    assert WordRun(s, 4) == 3;
    assert s[7..10] == "://";
    assert SchemeAt(s, 4);
    FirstSchemeIs(s, 0, 4);
    assert s[4..7] == "ftp";
  }

  /** The word run at the start of `t + rest` is `t` when `rest` does not start with a word character. */
  lemma WordRunOfPrefix(t: string, rest: string)
    requires forall i | 0 <= i < |t| :: IsWordChar(t[i])
    requires rest == [] || !IsWordChar(rest[0])
    ensures WordRun(t + rest, 0) == |t|
  {
    var s := t + rest;
    assert forall i | 0 <= i < |t| :: s[i] == t[i];
    assert |t| < |s| ==> s[|t|] == rest[0];
  }

  /** Round trip: the scheme token of `t://rest` is `t`, whatever `rest` holds. */
  lemma SchemeTokenOf(t: string, rest: string)
    requires t != [] && forall i | 0 <= i < |t| :: IsWordChar(t[i])
    ensures SchemeToken(t + "://" + rest) == Some(t)
  {
    var s := t + "://" + rest;
    assert s == t + ("://" + rest);
    WordRunOfPrefix(t, "://" + rest);
    assert s[|t|..|t| + 3] == "://";
    assert SchemeAt(s, 0);
    assert s[0..|t|] == t;
  }

  /** On one line, a token can only come from the start of the string. */
  lemma SingleLineTokenAtStart(s: string, t: string)
    requires LineCount(s) <= 1
    requires SchemeToken(s) == Some(t)
    ensures HasPrefix(s, t + "://")
  {
    var p := FirstSchemeFrom(s, 0).value;
    assert SchemeAt(s, p) && t == s[p..p + WordRun(s, p)];
    if p > 0 {
      NoInnerNewline(s, p - 1);
    }
    assert p == 0;
    assert s[..|t|] == t;
    assert s[|t|..|t| + 3] == "://";
    assert s[..|t| + 3] == t + "://";
  }

  /** On a single line the scheme token is exactly the word run before a leading `://`:
      `s` has token `t` iff `s` starts with `t://`. */
  lemma SingleLineSchemeToken(s: string, t: string)
    requires LineCount(s) <= 1
    requires t != [] && forall i | 0 <= i < |t| :: IsWordChar(t[i])
    ensures SchemeToken(s) == Some(t) <==> HasPrefix(s, t + "://")
  {
    if HasPrefix(s, t + "://") {
      var rest := s[|t| + 3..];
      assert s == t + "://" + rest;
      SchemeTokenOf(t, rest);
    }
    if SchemeToken(s) == Some(t) {
      SingleLineTokenAtStart(s, t);
    }
  }

  /** On a single line, the token test `when 'dfs'` (or `'ftp'`, ...) and the pattern
      `^dfs://` agree; on several lines they need not, since the token comes from the
      first line that carries any scheme. */
  lemma SingleLineToken(s: string, t: string)
    requires LineCount(s) <= 1
    requires t != [] && forall i | 0 <= i < |t| :: IsWordChar(t[i])
    ensures SchemeToken(s) == Some(t) <==> AnchoredMatch(s, t + "://")
  {
    SingleLineSchemeToken(s, t);
    SingleLineAnchor(s, t + "://");
  }
}
