/** The parts of Python's `urllib.parse` that the URL builders rely on: `urlsplit`, `urlunsplit`,
    `parse_qsl(..., keep_blank_values=True)`, `urlencode(..., doseq=True)` over string values,
    `quote_plus`, and the insertion-ordered `dict` built from query pairs. */
module Urls {
  import opened Text

  // ---------------------------------------------------------------------
  // urlsplit / urlunsplit
  // ---------------------------------------------------------------------

  /** `SplitResult(scheme, netloc, path, query, fragment)`. */
  datatype Parts = Parts(scheme: string, netloc: string, path: string, query: string, fragment: string)

  /** The first index of `c` in `s`, or -1 (`s.find(c)` for one character). */
  function FindChar(s: string, c: char): (k: int)
    ensures -1 <= k < |s|
    ensures k >= 0 ==> s[k] == c
    ensures forall j :: 0 <= j < |s| && (k < 0 || j < k) ==> s[j] != c
  {
    if |s| == 0 then -1
    else if s[0] == c then 0
    else
      var k := FindChar(s[1..], c);
      if k < 0 then -1 else k + 1
  }

  predicate IsSchemeChar(c: char) {
    IsAsciiLetter(c) || IsDigit(c) || c == '+' || c == '-' || c == '.'
  }

  /** Characters `urlsplit` strips from the left of a URL (C0 controls and the space). */
  predicate IsC0OrSpace(c: char) { c <= ' ' }

  /** Characters `urlsplit` deletes everywhere in a URL. */
  predicate IsUnsafe(c: char) { c == '\t' || c == '\r' || c == '\n' }

  predicate IsNetlocDelim(c: char) { c == '/' || c == '?' || c == '#' }

  predicate NoChar(s: string, c: char) {
    forall i :: 0 <= i < |s| ==> s[i] != c
  }

  predicate NoUnsafe(s: string) {
    forall i :: 0 <= i < |s| ==> !IsUnsafe(s[i])
  }

  /** The URL after the left strip and the removal of tabs and line breaks. */
  function Clean(url: string): (u: string)
    ensures NoUnsafe(u)
  {
    Filter(DropRun(url, IsC0OrSpace), c => !IsUnsafe(c))
  }

  predicate HasSchemePrefix(u: string, i: int) {
    0 < i <= |u| && IsAsciiLetter(u[0]) && forall j :: 0 <= j < i ==> IsSchemeChar(u[j])
  }

  /** The scheme (lower-cased) and the rest, when the text before the first ':' is a scheme. */
  function SplitScheme(u: string): (string, string) {
    var i := FindChar(u, ':');
    if HasSchemePrefix(u, i) then (Lower(u[..i]), u[i + 1..]) else ("", u)
  }

  /** The end of the network location: the first '/', '?' or '#' from `start` on. */
  function DelimFrom(s: string, start: nat): (d: nat)
    requires start <= |s|
    decreases |s| - start
    ensures start <= d <= |s|
    ensures d < |s| ==> IsNetlocDelim(s[d])
    ensures forall j :: start <= j < d ==> !IsNetlocDelim(s[j])
  {
    if start == |s| || IsNetlocDelim(s[start]) then start else DelimFrom(s, start + 1)
  }

  /** `_splitnetloc(url, 2)` when the rest starts with "//". */
  function SplitNetloc(rest: string): (string, string) {
    if StartsWith(rest, "//") then
      var d := DelimFrom(rest, 2);
      (rest[2..d], rest[d..])
    else ("", rest)
  }

  /** `s.split(c, 1)` read as a pair, the second part empty when there is no `c`. */
  function SplitAt(s: string, c: char): (string, string) {
    var k := FindChar(s, c);
    if k >= 0 then (s[..k], s[k + 1..]) else (s, "")
  }

  /** Exactly one of the two brackets: `urlsplit` raises "Invalid IPv6 URL". */
  predicate BracketsUnbalanced(netloc: string) {
    (Contains(netloc, "[") && !Contains(netloc, "]")) || (Contains(netloc, "]") && !Contains(netloc, "["))
  }

  /** `urlsplit(url)` with the left strip of C0 controls and spaces that Python 3.11.4 added,
      but without the bracketed-host checks added then and later; `None` for the one
      `ValueError` left, unbalanced brackets in the network location. */
  function Split(url: string): Option<Parts> {
    var u := Clean(url);
    var sr := SplitScheme(u);
    var nr := SplitNetloc(sr.1);
    var fr := SplitAt(nr.1, '#');
    var qr := SplitAt(fr.0, '?');
    if BracketsUnbalanced(nr.0) then None
    else Some(Parts(sr.0, nr.0, qr.0, qr.1, fr.1))
  }

  /** `urllib.parse.uses_netloc`. */
  const UsesNetloc: seq<string> := ["", "ftp", "http", "gopher", "nntp", "telnet", "imap", "wais", "file",
    "mms", "https", "shttp", "snews", "prospero", "rtsp", "rtspu", "rsync", "svn", "svn+ssh", "sftp",
    "nfs", "git", "git+ssh", "ws", "wss"]

  /** `urlunsplit(parts)`. */
  function Unsplit(p: Parts): string {
    SchemePrefix(p.scheme) + Hierarchy(p) + Suffix('?', p.query) + Suffix('#', p.fragment)
  }

  function SchemePrefix(scheme: string): string {
    if scheme != "" then scheme + ":" else ""
  }

  /** The "//netloc/path" part, with the "//" also written for an empty network location
      of a scheme in `uses_netloc`. */
  function Hierarchy(p: Parts): string {
    if p.netloc != "" || (p.scheme != "" && p.scheme in UsesNetloc && !StartsWith(p.path, "//")) then
      "//" + p.netloc + (if p.path != "" && p.path[0] != '/' then "/" + p.path else p.path)
    else p.path
  }

  /** The optional `c`-introduced suffix that `urlunsplit` writes for a query or fragment. */
  function Suffix(c: char, b: string): string {
    if b != "" then [c] + b else ""
  }

  predicate IsLowerSchemeChar(c: char) {
    IsAsciiLower(c) || IsDigit(c) || c == '+' || c == '-' || c == '.'
  }

  /** What every result of `urlsplit` looks like. */
  predicate WellFormed(p: Parts) {
    (p.scheme == "" || (IsAsciiLetter(p.scheme[0]) && forall i :: 0 <= i < |p.scheme| ==> IsLowerSchemeChar(p.scheme[i])))
    && (forall i :: 0 <= i < |p.netloc| ==> !IsNetlocDelim(p.netloc[i]))
    && !BracketsUnbalanced(p.netloc)
    && NoChar(p.path, '?') && NoChar(p.path, '#')
    && (p.netloc == "" || p.path == "" || p.path[0] == '/')
    && NoChar(p.query, '#')
    && NoUnsafe(p.netloc) && NoUnsafe(p.path) && NoUnsafe(p.query) && NoUnsafe(p.fragment)
  }

  lemma LowerScheme(s: string)
    requires forall i :: 0 <= i < |s| ==> IsSchemeChar(s[i])
    ensures forall i :: 0 <= i < |Lower(s)| ==> IsLowerSchemeChar(Lower(s)[i])
    ensures |Lower(s)| == |s|
  {
  }

  lemma NoUnsafeSlice(s: string, lo: nat, hi: nat)
    requires NoUnsafe(s) && lo <= hi <= |s|
    ensures NoUnsafe(s[lo..hi])
  {
    assert forall i :: 0 <= i < hi - lo ==> s[lo..hi][i] == s[lo + i];
  }

  lemma SchemeWellFormed(u: string)
    requires NoUnsafe(u)
    ensures var sr := SplitScheme(u);
      (sr.0 == "" || (IsAsciiLetter(sr.0[0]) && forall i :: 0 <= i < |sr.0| ==> IsLowerSchemeChar(sr.0[i])))
      && NoUnsafe(sr.1)
  {
    var i := FindChar(u, ':');
    if HasSchemePrefix(u, i) {
      LowerScheme(u[..i]);
      NoUnsafeSlice(u, i + 1, |u|);
      assert u[..i][0] == u[0];
    }
  }

  lemma NetlocWellFormed(rest: string)
    requires NoUnsafe(rest)
    ensures var nr := SplitNetloc(rest);
      (forall i :: 0 <= i < |nr.0| ==> !IsNetlocDelim(nr.0[i]))
      && NoUnsafe(nr.0) && NoUnsafe(nr.1)
      && (nr.0 != "" ==> nr.1 == "" || IsNetlocDelim(nr.1[0]))
  {
    if StartsWith(rest, "//") {
      var d := DelimFrom(rest, 2);
      NoUnsafeSlice(rest, 2, d);
      NoUnsafeSlice(rest, d, |rest|);
      assert forall i :: 0 <= i < d - 2 ==> rest[2..d][i] == rest[i + 2];
    }
  }

  lemma SplitAtWellFormed(s: string, c: char)
    requires NoUnsafe(s)
    ensures var r := SplitAt(s, c);
      NoUnsafe(r.0) && NoUnsafe(r.1) && NoChar(r.0, c) && StartsWith(s, r.0)
  {
    var k := FindChar(s, c);
    if k >= 0 {
      NoUnsafeSlice(s, 0, k);
      NoUnsafeSlice(s, k + 1, |s|);
    }
  }

  lemma SplitAtKeepsNoChar(s: string, c: char, e: char)
    requires NoChar(s, e)
    ensures NoChar(SplitAt(s, c).0, e) && NoChar(SplitAt(s, c).1, e)
  {
    var k := FindChar(s, c);
    if k >= 0 {
      NoCharSlice(s, e, 0, k);
      NoCharSlice(s, e, k + 1, |s|);
    }
  }

  lemma NoCharSlice(s: string, c: char, lo: nat, hi: nat)
    requires NoChar(s, c) && lo <= hi <= |s|
    ensures NoChar(s[lo..hi], c)
  {
    assert forall i :: 0 <= i < hi - lo ==> s[lo..hi][i] == s[lo + i];
  }

  /** Every result of `urlsplit` is well formed. */
  lemma SplitWellFormed(url: string)
    requires Split(url).Some?
    ensures WellFormed(Split(url).value)
  {
    var u := Clean(url);
    var sr := SplitScheme(u);
    SchemeWellFormed(u);
    var nr := SplitNetloc(sr.1);
    NetlocWellFormed(sr.1);
    var fr := SplitAt(nr.1, '#');
    SplitAtWellFormed(nr.1, '#');
    var qr := SplitAt(fr.0, '?');
    SplitAtWellFormed(fr.0, '?');
    SplitAtKeepsNoChar(fr.0, '?', '#');
    if nr.0 != "" && nr.1 != "" && qr.0 != "" {
      assert nr.1[0] == fr.0[0] == qr.0[0];
    }
    assert Split(url).value == Parts(sr.0, nr.0, qr.0, qr.1, fr.1);
  }

  lemma FindCharAt(s: string, c: char, k: nat)
    requires k < |s| && s[k] == c
    requires forall j :: 0 <= j < k ==> s[j] != c
    ensures FindChar(s, c) == k
  {
  }

  lemma FindCharNone(s: string, c: char)
    requires NoChar(s, c)
    ensures FindChar(s, c) == -1
  {
  }

  lemma CleanKeeps(u: string)
    requires NoUnsafe(u) && (u == "" || !IsC0OrSpace(u[0]))
    ensures Clean(u) == u
  {
    assert DropRun(u, IsC0OrSpace) == u;
    FilterAll(u);
  }

  lemma {:induction false} FilterAll(u: string)
    requires NoUnsafe(u)
    ensures Filter(u, c => !IsUnsafe(c)) == u
  {
    if |u| > 0 {
      FilterAll(u[1..]);
    }
  }

  /** Splitting at the first `c` finds the separator that was put after a `c`-free prefix. */
  lemma SplitAtJoin(a: string, c: char, b: string)
    requires NoChar(a, c)
    ensures SplitAt(a + [c] + b, c) == (a, b)
  {
    var s := a + [c] + b;
    FindCharAt(s, c, |a|);
    assert s[..|a|] == a && s[|a| + 1..] == b;
  }

  lemma SplitAtNone(a: string, c: char)
    requires NoChar(a, c)
    ensures SplitAt(a, c) == (a, "")
  {
    FindCharNone(a, c);
  }

  lemma SplitAtSuffix(a: string, c: char, b: string)
    requires NoChar(a, c)
    ensures SplitAt(a + Suffix(c, b), c) == (a, b)
  {
    if b != "" {
      assert a + Suffix(c, b) == a + [c] + b;
      SplitAtJoin(a, c, b);
    } else {
      assert a + Suffix(c, b) == a;
      SplitAtNone(a, c);
    }
  }

  lemma SchemeBack(scheme: string, rest: string)
    requires scheme == "" || (IsAsciiLetter(scheme[0]) && forall i :: 0 <= i < |scheme| ==> IsLowerSchemeChar(scheme[i]))
    requires StartsWith(rest, "//")
    ensures SplitScheme(SchemePrefix(scheme) + rest) == (scheme, rest)
  {
    var u := SchemePrefix(scheme) + rest;
    if scheme != "" {
      FindCharAt(u, ':', |scheme|);
      assert u[..|scheme|] == scheme;
      LowerKeepsScheme(scheme);
      assert u[|scheme| + 1..] == rest;
    } else {
      assert u == rest && u[0] == '/';
      assert !HasSchemePrefix(u, FindChar(u, ':'));
    }
  }

  lemma NetlocBack(netloc: string, after: string)
    requires forall i :: 0 <= i < |netloc| ==> !IsNetlocDelim(netloc[i])
    requires after == "" || IsNetlocDelim(after[0])
    ensures SplitNetloc("//" + netloc + after) == (netloc, after)
  {
    var rest := "//" + netloc + after;
    var d := 2 + |netloc|;
    assert forall j :: 2 <= j < d ==> rest[j] == netloc[j - 2];
    DelimAt(rest, d);
    assert rest[2..d] == netloc && rest[d..] == after;
  }

  lemma NoCharConcat(a: string, b: string, c: char)
    requires NoChar(a, c) && NoChar(b, c)
    ensures NoChar(a + b, c)
  {
    assert forall i :: 0 <= i < |a + b| ==> (a + b)[i] == if i < |a| then a[i] else b[i - |a|];
  }

  lemma NoUnsafeConcat(a: string, b: string)
    requires NoUnsafe(a) && NoUnsafe(b)
    ensures NoUnsafe(a + b)
  {
    assert forall i :: 0 <= i < |a + b| ==> (a + b)[i] == if i < |a| then a[i] else b[i - |a|];
  }

  lemma AfterNetloc(path: string, query: string, fragment: string)
    requires path == "" || path[0] == '/'
    ensures var after := path + Suffix('?', query) + Suffix('#', fragment);
      after == "" || IsNetlocDelim(after[0])
  {
  }

  lemma SuffixNoChar(c: char, b: string, e: char)
    requires c != e && NoChar(b, e)
    ensures NoChar(Suffix(c, b), e)
  {
  }

  lemma SuffixNoUnsafe(c: char, b: string)
    requires !IsUnsafe(c) && NoUnsafe(b)
    ensures NoUnsafe(Suffix(c, b))
  {
  }

  lemma SplitFromSteps(u: string, sr: (string, string), nr: (string, string), fr: (string, string), qr: (string, string))
    requires Clean(u) == u && SplitScheme(u) == sr && SplitNetloc(sr.1) == nr
    requires SplitAt(nr.1, '#') == fr && SplitAt(fr.0, '?') == qr && !BracketsUnbalanced(nr.0)
    ensures Split(u) == Some(Parts(sr.0, nr.0, qr.0, qr.1, fr.1))
  {
  }

  /** The text `urlunsplit` writes for a split with a network location contains no character
      `urlsplit` would remove. */
  lemma UnsplitClean(p: Parts)
    requires WellFormed(p) && p.netloc != ""
    ensures Clean(Unsplit(p)) == Unsplit(p)
  {
    var h := "//" + p.netloc + p.path;
    assert Hierarchy(p) == h;
    var a := SchemePrefix(p.scheme);
    var q := Suffix('?', p.query);
    var f := Suffix('#', p.fragment);
    assert NoUnsafe(a);
    NoUnsafeConcat("//", p.netloc);
    NoUnsafeConcat("//" + p.netloc, p.path);
    SuffixNoUnsafe('?', p.query);
    SuffixNoUnsafe('#', p.fragment);
    NoUnsafeConcat(a, h);
    NoUnsafeConcat(a + h, q);
    NoUnsafeConcat(a + h + q, f);
    var u := a + h + q + f;
    assert u[0] == (if p.scheme != "" then p.scheme[0] else '/');
    CleanKeeps(u);
  }

  /** With a network location, `urlunsplit` writes the scheme, "//", the network location and
      the rest. */
  lemma UnsplitShape(p: Parts)
    requires p.netloc != "" && (p.path == "" || p.path[0] == '/')
    ensures Unsplit(p) == SchemePrefix(p.scheme) + ("//" + p.netloc + (p.path + Suffix('?', p.query) + Suffix('#', p.fragment)))
  {
    var h := "//" + p.netloc + p.path;
    assert Hierarchy(p) == h;
    var a, q, f := SchemePrefix(p.scheme), Suffix('?', p.query), Suffix('#', p.fragment);
    assert a + h + q + f == a + (h + q + f);
    assert h + q + f == "//" + p.netloc + (p.path + q + f);
  }

  /** `urlsplit` undoes `urlunsplit` for every well-formed split with a network location. */
  lemma SplitUnsplit(p: Parts)
    requires WellFormed(p) && p.netloc != ""
    ensures Split(Unsplit(p)) == Some(p)
  {
    var pq := p.path + Suffix('?', p.query);
    var after := pq + Suffix('#', p.fragment);
    var rest := "//" + p.netloc + after;
    var u := SchemePrefix(p.scheme) + rest;
    UnsplitShape(p);
    UnsplitClean(p);
    HeadBack(p, rest, after);
    TailBack(p, pq, after);
    SplitFromSteps(u, (p.scheme, rest), (p.netloc, after), (pq, p.fragment), (p.path, p.query));
  }

  /** The scheme and the network location of a written link are read back. */
  lemma HeadBack(p: Parts, rest: string, after: string)
    requires WellFormed(p) && p.netloc != ""
    requires after == p.path + Suffix('?', p.query) + Suffix('#', p.fragment)
    requires rest == "//" + p.netloc + after
    ensures SplitScheme(SchemePrefix(p.scheme) + rest) == (p.scheme, rest)
    ensures SplitNetloc(rest) == (p.netloc, after)
  {
    assert rest[..2] == "//";
    SchemeBack(p.scheme, rest);
    AfterNetloc(p.path, p.query, p.fragment);
    NetlocBack(p.netloc, after);
  }

  /** The path, the query and the fragment of a written link are read back. */
  lemma TailBack(p: Parts, pq: string, after: string)
    requires WellFormed(p)
    requires pq == p.path + Suffix('?', p.query) && after == pq + Suffix('#', p.fragment)
    ensures SplitAt(after, '#') == (pq, p.fragment) && SplitAt(pq, '?') == (p.path, p.query)
  {
    SuffixNoChar('?', p.query, '#');
    NoCharConcat(p.path, Suffix('?', p.query), '#');
    SplitAtSuffix(pq, '#', p.fragment);
    SplitAtSuffix(p.path, '?', p.query);
  }

  lemma LowerKeepsScheme(s: string)
    requires forall i :: 0 <= i < |s| ==> IsLowerSchemeChar(s[i])
    ensures Lower(s) == s
  {
  }

  lemma DelimAt(rest: string, d: nat)
    requires 2 <= d <= |rest|
    requires forall j :: 2 <= j < d ==> !IsNetlocDelim(rest[j])
    requires d == |rest| || IsNetlocDelim(rest[d])
    ensures DelimFrom(rest, 2) == d
  {
  }

  // ---------------------------------------------------------------------
  // Query strings
  // ---------------------------------------------------------------------

  /** An insertion-ordered Python `dict` of strings. */
  type Dict = seq<(string, string)>

  function Keys(d: Dict): seq<string> {
    seq(|d|, i requires 0 <= i < |d| => d[i].0)
  }

  predicate DistinctKeys(d: Dict) {
    forall i, j :: 0 <= i < j < |d| ==> d[i].0 != d[j].0
  }

  /** `d.get(k)`. */
  function Get(d: Dict, k: string): Option<string> {
    if |d| == 0 then None else if d[0].0 == k then Some(d[0].1) else Get(d[1..], k)
  }

  /** `d[k] = v`: an existing key keeps its place, a new one goes last. */
  function SetKey(d: Dict, k: string, v: string): (r: Dict)
    ensures |r| == |d| || |r| == |d| + 1
  {
    if |d| == 0 then [(k, v)]
    else if d[0].0 == k then [(k, v)] + d[1..]
    else [d[0]] + SetKey(d[1..], k, v)
  }

  /** Assignment sets the key, leaves every other key's value alone, and keeps the key order. */
  lemma SetKeyCharacterised(d: Dict, k: string, v: string, other: string)
    ensures Get(SetKey(d, k, v), k) == Some(v)
    ensures other != k ==> Get(SetKey(d, k, v), other) == Get(d, other)
    ensures Keys(SetKey(d, k, v)) == if k in Keys(d) then Keys(d) else Keys(d) + [k]
    ensures DistinctKeys(d) ==> DistinctKeys(SetKey(d, k, v))
  {
    SetKeyGet(d, k, v, other);
    SetKeyKeys(d, k, v);
    if DistinctKeys(d) {
      SetKeyDistinct(d, k, v);
    }
  }

  lemma {:induction false} SetKeyGet(d: Dict, k: string, v: string, other: string)
    ensures Get(SetKey(d, k, v), k) == Some(v)
    ensures other != k ==> Get(SetKey(d, k, v), other) == Get(d, other)
  {
    if |d| > 0 {
      SetKeyGet(d[1..], k, v, other);
    }
  }

  lemma {:induction false} SetKeyKeys(d: Dict, k: string, v: string)
    ensures Keys(SetKey(d, k, v)) == if k in Keys(d) then Keys(d) else Keys(d) + [k]
  {
    if |d| > 0 {
      SetKeyKeys(d[1..], k, v);
      assert Keys(d) == [d[0].0] + Keys(d[1..]);
      var r := SetKey(d, k, v);
      if d[0].0 == k {
        assert Keys(r) == [k] + Keys(d[1..]);
      } else {
        assert Keys(r) == [d[0].0] + Keys(SetKey(d[1..], k, v));
      }
    }
  }

  lemma {:induction false} SetKeyDistinct(d: Dict, k: string, v: string)
    requires DistinctKeys(d)
    ensures DistinctKeys(SetKey(d, k, v))
  {
    if |d| > 0 {
      assert DistinctKeys(d[1..]) by {
        forall i, j | 0 <= i < j < |d[1..]| ensures d[1..][i].0 != d[1..][j].0 {
          assert d[1..][i] == d[i + 1] && d[1..][j] == d[j + 1];
        }
      }
      SetKeyDistinct(d[1..], k, v);
      var r := SetKey(d, k, v);
      if d[0].0 != k {
        SetKeyKeys(d[1..], k, v);
        assert Keys(d) == [d[0].0] + Keys(d[1..]);
        var t := SetKey(d[1..], k, v);
        forall j | 0 <= j < |t| ensures t[j].0 != d[0].0 {
          assert Keys(t)[j] == t[j].0;
          if j < |d[1..]| {
            assert Keys(t)[j] == Keys(d[1..])[j] == d[j + 1].0;
          }
        }
        assert r == [d[0]] + t;
      } else {
        assert forall j :: 1 <= j < |r| ==> r[j] == d[j];
      }
    }
  }

  /** `dict(pairs)`: the last value of each key wins, in first-occurrence order. */
  function DictOf(pairs: seq<(string, string)>): (d: Dict)
    ensures DistinctKeys(d)
  {
    if |pairs| == 0 then []
    else
      var init := DictOf(pairs[..|pairs| - 1]);
      SetKeyCharacterised(init, pairs[|pairs| - 1].0, pairs[|pairs| - 1].1, "");
      SetKey(init, pairs[|pairs| - 1].0, pairs[|pairs| - 1].1)
  }

  /** The value the last pair with key `k` carries. */
  function LastValue(pairs: seq<(string, string)>, k: string): Option<string> {
    if |pairs| == 0 then None
    else if pairs[|pairs| - 1].0 == k then Some(pairs[|pairs| - 1].1)
    else LastValue(pairs[..|pairs| - 1], k)
  }

  /** `dict(pairs)[k]` is the last value given for `k`. */
  lemma {:induction false} DictOfGet(pairs: seq<(string, string)>, k: string)
    ensures Get(DictOf(pairs), k) == LastValue(pairs, k)
  {
    if |pairs| > 0 {
      var last := pairs[|pairs| - 1];
      DictOfGet(pairs[..|pairs| - 1], k);
      SetKeyCharacterised(DictOf(pairs[..|pairs| - 1]), last.0, last.1, k);
    }
  }

  /** `name_value.split('=', 1)`, padded with an empty value when there is no '='. */
  function SplitPair(nv: string): (string, string) {
    SplitAt(nv, '=')
  }

  /** `parse_qsl(qs, keep_blank_values=True)`. `unquote` stands for `urllib.parse.unquote`
      (percent-decoding into UTF-8), applied after '+' becomes ' '. */
  function ParseQsl(qs: string, unquote: string -> string): seq<(string, string)> {
    var args := QueryArgs(qs);
    seq(|args|, i requires 0 <= i < |args| => DecodePair(args[i], unquote))
  }

  /** The non-empty '&'-separated fields of a query. */
  function QueryArgs(qs: string): seq<string> {
    NonEmpty(SplitOn(qs, '&'))
  }

  /** One field: split at the first '=', '+' read as ' ', then percent-decoded. */
  function DecodePair(nv: string, unquote: string -> string): (string, string) {
    var p := SplitPair(nv);
    (unquote(ReplaceAll(p.0, "+", " ")), unquote(ReplaceAll(p.1, "+", " ")))
  }

  /** `urlencode(d, doseq=True)` for string values. */
  function Urlencode(d: Dict): string {
    Join(EncodedPairs(d), "&")
  }

  function EncodedPairs(d: Dict): seq<string> {
    seq(|d|, i requires 0 <= i < |d| => QuotePlus(d[i].0) + "=" + QuotePlus(d[i].1))
  }

  // ---------------------------------------------------------------------
  // quote_plus
  // ---------------------------------------------------------------------

  /** Characters `quote` never escapes. */
  predicate IsAlwaysSafe(c: char) {
    IsAsciiLetter(c) || IsDigit(c) || c == '_' || c == '.' || c == '-' || c == '~'
  }

  /** The UTF-8 encoding of one character. */
  function Utf8(c: char): (bs: seq<nat>)
    ensures 1 <= |bs| <= 4 && forall i :: 0 <= i < |bs| ==> bs[i] < 256
  {
    var n := c as int;
    if n < 0x80 then [n]
    else if n < 0x800 then [0xC0 + n / 64, 0x80 + n % 64]
    else if n < 0x10000 then [0xE0 + n / 4096, 0x80 + (n / 64) % 64, 0x80 + n % 64]
    else [0xF0 + n / 262144, 0x80 + (n / 4096) % 64, 0x80 + (n / 64) % 64, 0x80 + n % 64]
  }

  function HexDigit(d: nat): char
    requires d < 16
  {
    if d < 10 then ('0' as int + d) as char else ('A' as int + d - 10) as char
  }

  /** `%XX`, upper-case hex. */
  function PercentBytes(bs: seq<nat>): string
    requires forall i :: 0 <= i < |bs| ==> bs[i] < 256
  {
    if |bs| == 0 then "" else ['%', HexDigit(bs[0] / 16), HexDigit(bs[0] % 16)] + PercentBytes(bs[1..])
  }

  function QuoteChar(c: char): string {
    if IsAlwaysSafe(c) then [c]
    else if c == ' ' then "+"
    else PercentBytes(Utf8(c))
  }

  /** `quote_plus(s)`: safe characters stay, ' ' becomes '+', anything else is escaped byte by byte. */
  function QuotePlus(s: string): string {
    if |s| == 0 then "" else QuoteChar(s[0]) + QuotePlus(s[1..])
  }

  /** What `quote_plus` can emit. */
  predicate IsQuotedChar(c: char) {
    IsAlwaysSafe(c) || c == '+' || c == '%'
  }

  lemma {:induction false} PercentBytesQuoted(bs: seq<nat>)
    requires forall i :: 0 <= i < |bs| ==> bs[i] < 256
    ensures AllChars(PercentBytes(bs), IsQuotedChar)
  {
    if |bs| > 0 {
      PercentBytesQuoted(bs[1..]);
      var h := ['%', HexDigit(bs[0] / 16), HexDigit(bs[0] % 16)];
      assert AllChars(h, IsQuotedChar);
      AllCharsConcat(h, PercentBytes(bs[1..]), IsQuotedChar);
    }
  }

  lemma AllCharsConcat(a: string, b: string, q: char -> bool)
    requires AllChars(a, q) && AllChars(b, q)
    ensures AllChars(a + b, q)
  {
    assert forall i :: 0 <= i < |a + b| ==> (a + b)[i] == if i < |a| then a[i] else b[i - |a|];
  }

  /** Encoded text never carries the characters the query syntax gives a meaning to. */
  lemma {:induction false} QuotePlusClean(s: string)
    ensures AllChars(QuotePlus(s), IsQuotedChar)
  {
    if |s| > 0 {
      QuotePlusClean(s[1..]);
      if !IsAlwaysSafe(s[0]) && s[0] != ' ' {
        PercentBytesQuoted(Utf8(s[0]));
      }
      AllCharsConcat(QuoteChar(s[0]), QuotePlus(s[1..]), IsQuotedChar);
    }
  }

  /** `unquote` undoes `quote_plus` once '+' is read back as ' ' (the contract of the pair in
      `urllib.parse`). */
  ghost predicate Inverts(unquote: string -> string) {
    forall s :: unquote(ReplaceAll(QuotePlus(s), "+", " ")) == s
  }

  lemma {:induction false} SplitOnJoin(parts: seq<string>)
    requires |parts| > 0
    requires forall i :: 0 <= i < |parts| ==> NoChar(parts[i], '&')
    ensures SplitOn(Join(parts, "&"), '&') == parts
  {
    if |parts| == 1 {
      SplitOnNone(parts[0], '&');
    } else {
      SplitOnJoin(parts[1..]);
      SplitOnFirst(parts[0], Join(parts[1..], "&"), '&');
      assert Join(parts, "&") == parts[0] + "&" + Join(parts[1..], "&");
      assert parts == [parts[0]] + parts[1..];
    }
  }

  /** Splitting a text without the separator gives the text alone. */
  lemma {:induction false} SplitOnNone(a: string, sep: char)
    requires NoChar(a, sep)
    ensures SplitOn(a, sep) == [a]
  {
    if |a| > 0 {
      SplitOnNone(a[1..], sep);
      assert [a[0]] + a[1..] == a;
    }
  }

  /** Splitting at the first separator gives the text before it, then the split of the rest. */
  lemma {:induction false} SplitOnFirst(a: string, b: string, sep: char)
    requires NoChar(a, sep)
    ensures SplitOn(a + [sep] + b, sep) == [a] + SplitOn(b, sep)
  {
    var s := a + [sep] + b;
    if |a| == 0 {
      assert s == [sep] + b;
      SplitOnSep(b, sep);
    } else {
      var t := a[1..] + [sep] + b;
      assert s == [a[0]] + t;
      SplitOnFirst(a[1..], b, sep);
      SplitOnCons(a[0], t, sep);
      assert [a[0]] + a[1..] == a;
    }
  }

  lemma SplitOnSep(t: string, sep: char)
    ensures SplitOn([sep] + t, sep) == [""] + SplitOn(t, sep)
  {
    assert ([sep] + t)[1..] == t;
  }

  lemma SplitOnCons(c: char, t: string, sep: char)
    requires c != sep
    ensures SplitOn([c] + t, sep) == [[c] + SplitOn(t, sep)[0]] + SplitOn(t, sep)[1..]
  {
    assert ([c] + t)[1..] == t;
  }

  lemma NonEmptyAll(parts: seq<string>)
    requires forall i :: 0 <= i < |parts| ==> parts[i] != ""
    ensures NonEmpty(parts) == parts
  {
    if |parts| > 0 {
      NonEmptyAll(parts[1..]);
      assert parts == [parts[0]] + parts[1..];
    }
  }

  lemma QuotedNoChar(s: string, c: char)
    requires !IsQuotedChar(c)
    ensures NoChar(QuotePlus(s), c)
  {
    QuotePlusClean(s);
  }

  /** `parse_qsl` reads back exactly the pairs `urlencode` wrote. */
  lemma QueryArgsUrlencode(d: Dict)
    ensures QueryArgs(Urlencode(d)) == EncodedPairs(d)
  {
    var parts := EncodedPairs(d);
    forall i | 0 <= i < |parts| ensures NoChar(parts[i], '&') && parts[i] != "" {
      QuotedNoChar(d[i].0, '&');
      QuotedNoChar(d[i].1, '&');
      assert parts[i] == QuotePlus(d[i].0) + "=" + QuotePlus(d[i].1);
    }
    if |parts| > 0 {
      SplitOnJoin(parts);
      NonEmptyAll(parts);
    }
  }

  lemma DecodeEncodedPair(k: string, v: string, unquote: string -> string)
    requires Inverts(unquote)
    ensures DecodePair(QuotePlus(k) + "=" + QuotePlus(v), unquote) == (k, v)
  {
    QuotedNoChar(k, '=');
    SplitAtJoin(QuotePlus(k), '=', QuotePlus(v));
    assert QuotePlus(k) + "=" + QuotePlus(v) == QuotePlus(k) + ['='] + QuotePlus(v);
    assert unquote(ReplaceAll(QuotePlus(k), "+", " ")) == k;
    assert unquote(ReplaceAll(QuotePlus(v), "+", " ")) == v;
  }

  /** `parse_qsl` reads back exactly the pairs `urlencode` wrote. */
  lemma ParseQslUrlencode(d: Dict, unquote: string -> string)
    requires Inverts(unquote)
    ensures ParseQsl(Urlencode(d), unquote) == d
  {
    QueryArgsUrlencode(d);
    var args := QueryArgs(Urlencode(d));
    forall i | 0 <= i < |d|
      ensures ParseQsl(Urlencode(d), unquote)[i] == d[i]
    {
      assert args[i] == QuotePlus(d[i].0) + "=" + QuotePlus(d[i].1);
      DecodeEncodedPair(d[i].0, d[i].1, unquote);
    }
  }

  /** What `urlencode` can emit. */
  predicate IsQueryChar(c: char) {
    IsQuotedChar(c) || c == '=' || c == '&'
  }

  lemma {:induction false} JoinChars(parts: seq<string>, q: char -> bool)
    requires forall i :: 0 <= i < |parts| ==> AllChars(parts[i], q)
    requires q('&')
    ensures AllChars(Join(parts, "&"), q)
  {
    if |parts| > 1 {
      JoinChars(parts[1..], q);
      AllCharsConcat(parts[0], "&", q);
      AllCharsConcat(parts[0] + "&", Join(parts[1..], "&"), q);
    }
  }

  /** An encoded query has no fragment delimiter and no tab or line break, so it can stand as
      the query of a split URL. */
  lemma UrlencodeClean(d: Dict)
    ensures AllChars(Urlencode(d), IsQueryChar)
    ensures NoChar(Urlencode(d), '#') && NoUnsafe(Urlencode(d))
  {
    var parts := EncodedPairs(d);
    forall i | 0 <= i < |parts| ensures AllChars(parts[i], IsQueryChar) {
      QuotePlusClean(d[i].0);
      QuotePlusClean(d[i].1);
      AllCharsConcat(QuotePlus(d[i].0), "=", IsQueryChar);
      AllCharsConcat(QuotePlus(d[i].0) + "=", QuotePlus(d[i].1), IsQueryChar);
    }
    JoinChars(parts, IsQueryChar);
  }

  /** Replacing the query of a split URL that has a network location by an encoded one gives a
      URL that splits back into the same scheme, location, path and fragment with the new query. */
  lemma ReplaceQuery(url: string, d: Dict)
    requires Split(url).Some? && Split(url).value.netloc != ""
    ensures var p := Split(url).value.(query := Urlencode(d)); Split(Unsplit(p)) == Some(p)
  {
    SplitWellFormed(url);
    UrlencodeClean(d);
    SplitUnsplit(Split(url).value.(query := Urlencode(d)));
  }
}
