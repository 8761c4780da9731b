/** String primitives with Python's semantics, shared by every other module.
    Strings are `seq<char>`; character classes follow Python's `str` methods
    and its `re` classes over the characters the crawled pages use (ASCII,
    Latin-1 and the Cyrillic block U+0400 to U+04FF). */
module Text {

  datatype Option<T> = None | Some(value: T)

  function OrElse<T>(o: Option<T>, d: T): T {
    if o.Some? then o.value else d
  }

  // ---------------------------------------------------------------------
  // Character classes
  // ---------------------------------------------------------------------

  /** Python's `str.isspace`, which is also what `\s` matches in a `str` regex. */
  predicate IsSpace(c: char) {
    c == ' ' || ('\t' <= c <= '\r') || ('\U{1c}' <= c <= '\U{1f}')
    || c == '\U{85}' || c == '\U{a0}' || c == '\U{1680}'
    || ('\U{2000}' <= c <= '\U{200a}') || c == '\U{2028}' || c == '\U{2029}'
    || c == '\U{202f}' || c == '\U{205f}' || c == '\U{3000}'
  }

  /** `\d` restricted to ASCII digits. */
  predicate IsDigit(c: char) { '0' <= c <= '9' }

  predicate IsAsciiLower(c: char) { 'a' <= c <= 'z' }

  predicate IsAsciiLetter(c: char) { 'a' <= c <= 'z' || 'A' <= c <= 'Z' }

  /** Cyrillic lower-case `а`..`я` (the class `[а-я]`, which leaves out `ё`). */
  predicate IsCyrLower(c: char) { '\U{430}' <= c <= '\U{44f}' }

  /** `\w` of a `str` regex: letters, digits and `_`, over ASCII, Latin-1 and Cyrillic. */
  predicate IsWordChar(c: char) {
    IsAsciiLetter(c) || IsDigit(c) || c == '_'
    || c == '\U{aa}' || c == '\U{b2}' || c == '\U{b3}' || c == '\U{b5}' || c == '\U{b9}'
    || c == '\U{ba}' || ('\U{bc}' <= c <= '\U{be}')
    || ('\U{c0}' <= c <= '\U{ff}' && c != '\U{d7}' && c != '\U{f7}')
    || ('\U{400}' <= c <= '\U{481}') || ('\U{48a}' <= c <= '\U{4ff}')
  }

  /** `str.lower` on one character, for ASCII, Latin-1 and the Cyrillic block (U+0400 to
      U+04FF): `А`..`Я` and `Ѐ`..`Џ`, the even/odd capital/small pairs of U+0460..U+0481,
      U+048A..U+04BF and U+04D0..U+04FF, the odd/even pairs of U+04C1..U+04CE, and
      palochka U+04C0, whose small form is U+04CF. */
  function LowerChar(c: char): char {
    if 'A' <= c <= 'Z' then (c as int + 32) as char
    else if '\U{c0}' <= c <= '\U{de}' && c != '\U{d7}' then (c as int + 32) as char
    else if '\U{410}' <= c <= '\U{42f}' then (c as int + 32) as char
    else if '\U{400}' <= c <= '\U{40f}' then (c as int + 80) as char
    else if IsCyrPairCapital(c) then (c as int + 1) as char
    else if c == '\U{4c0}' then '\U{4cf}'
    else c
  }

  /** The capital of a Cyrillic capital/small pair whose small letter follows it. */
  predicate IsCyrPairCapital(c: char) {
    (('\U{460}' <= c <= '\U{481}' || '\U{48a}' <= c <= '\U{4bf}' || '\U{4d0}' <= c <= '\U{4ff}') && c as int % 2 == 0)
    || ('\U{4c1}' <= c <= '\U{4ce}' && c as int % 2 == 1)
  }

  function Lower(s: string): (r: string)
    ensures |r| == |s|
    ensures forall i :: 0 <= i < |s| ==> r[i] == LowerChar(s[i])
  {
    seq(|s|, i requires 0 <= i < |s| => LowerChar(s[i]))
  }

  /** A lower-cased character is its own lower case. */
  lemma LowerCharTwice(c: char)
    ensures LowerChar(LowerChar(c)) == LowerChar(c)
  {
  }

  /** Lower-casing twice is lower-casing once. */
  lemma LowerIdempotent(s: string)
    ensures Lower(Lower(s)) == Lower(s)
  {
  }

  lemma LowerAppend(a: string, b: string)
    ensures Lower(a + b) == Lower(a) + Lower(b)
  {
  }

  /** Lower-casing leaves digits and the other characters it does not know alone. */
  lemma LowerDigits(s: string)
    requires forall i :: 0 <= i < |s| ==> IsDigit(s[i])
    ensures Lower(s) == s
  {
  }

  // ---------------------------------------------------------------------
  // Prefixes, containment, search
  // ---------------------------------------------------------------------

  predicate StartsWith(s: string, p: string) {
    |p| <= |s| && s[..|p|] == p
  }

  lemma StartsWithAppend(p: string, s: string)
    ensures StartsWith(p + s, p)
  {
    assert (p + s)[..|p|] == p;
  }

  /** Python's `sub in s`. */
  predicate Contains(s: string, sub: string)
    decreases |s|
  {
    StartsWith(s, sub) || (|s| > 0 && Contains(s[1..], sub))
  }

  /** Python's `s.find(sub)`: the first index of `sub`, or -1. */
  function Find(s: string, sub: string): (k: int)
    decreases |s|
    ensures -1 <= k && k + |sub| <= |s| + (if k < 0 then |sub| + 1 else 0)
    ensures k >= 0 ==> s[k..k + |sub|] == sub
    ensures k >= 0 <==> Contains(s, sub)
  {
    if StartsWith(s, sub) then 0
    else if |s| == 0 then -1
    else
      var k := Find(s[1..], sub);
      if k < 0 then -1 else k + 1
  }

  lemma ContainsAt(s: string, sub: string, i: nat)
    requires i + |sub| <= |s| && s[i..i + |sub|] == sub
    ensures Contains(s, sub)
    decreases i
  {
    if i > 0 {
      assert s[1..][i - 1..i - 1 + |sub|] == sub;
      ContainsAt(s[1..], sub, i - 1);
    }
  }

  lemma ContainsPrefixOf(s: string, t: string, sub: string)
    requires Contains(s, sub)
    ensures Contains(s + t, sub)
    decreases |s|
  {
    var k := Find(s, sub);
    assert (s + t)[k..k + |sub|] == s[k..k + |sub|];
    ContainsAt(s + t, sub, k);
  }

  lemma ContainsSuffixOf(s: string, t: string, sub: string)
    requires Contains(t, sub)
    ensures Contains(s + t, sub)
  {
    var k := Find(t, sub);
    assert (s + t)[|s| + k..|s| + k + |sub|] == t[k..k + |sub|];
    ContainsAt(s + t, sub, |s| + k);
  }

  /** A string without the character `c` does not contain `[c]`. */
  lemma {:induction false} NotContainsChar(s: string, c: char)
    requires forall i :: 0 <= i < |s| ==> s[i] != c
    ensures !Contains(s, [c])
    decreases |s|
  {
    if |s| > 0 {
      assert s[..1][0] == s[0];
      assert forall i :: 0 <= i < |s| - 1 ==> s[1..][i] == s[i + 1];
      NotContainsChar(s[1..], c);
    }
  }

  /** Python's `any(m in s for m in markers)`. */
  predicate AnyIn(markers: seq<string>, s: string) {
    exists i :: 0 <= i < |markers| && Contains(s, markers[i])
  }

  // ---------------------------------------------------------------------
  // Whitespace
  // ---------------------------------------------------------------------

  function StripLeft(s: string): (r: string)
    decreases |s|
    ensures |r| <= |s| && r == s[|s| - |r|..]
    ensures r == [] || !IsSpace(r[0])
  {
    if |s| > 0 && IsSpace(s[0]) then StripLeft(s[1..]) else s
  }

  function StripRight(s: string): (r: string)
    decreases |s|
    ensures |r| <= |s| && r == s[..|r|]
    ensures r == [] || !IsSpace(r[|r| - 1])
  {
    if |s| > 0 && IsSpace(s[|s| - 1]) then StripRight(s[..|s| - 1]) else s
  }

  lemma StripLeftUnchanged(s: string)
    requires |s| > 0 ==> !IsSpace(s[0])
    ensures StripLeft(s) == s
  {
  }

  lemma StripRightUnchanged(s: string)
    requires |s| > 0 ==> !IsSpace(s[|s| - 1])
    ensures StripRight(s) == s
  {
  }

  /** Python's `s.strip()`. */
  function Strip(s: string): string {
    StripRight(StripLeft(s))
  }

  /** Stripping removes whitespace padding around a text that neither starts nor ends with
      whitespace. */
  lemma StripPadded(lead: string, s: string, trail: string)
    requires forall i :: 0 <= i < |lead| ==> IsSpace(lead[i])
    requires forall i :: 0 <= i < |trail| ==> IsSpace(trail[i])
    requires |s| > 0 && !IsSpace(s[0]) && !IsSpace(s[|s| - 1])
    ensures Strip(lead + s + trail) == s
  {
    assert lead + s + trail == lead + (s + trail);
    assert (s + trail)[0] == s[0];
    StripLeftPadded(lead, s + trail);
    StripRightPadded(s, trail);
  }

  lemma {:induction false} StripLeftPadded(lead: string, s: string)
    requires forall i :: 0 <= i < |lead| ==> IsSpace(lead[i])
    requires |s| > 0 && !IsSpace(s[0])
    ensures StripLeft(lead + s) == s
  {
    if |lead| > 0 {
      assert (lead + s)[1..] == lead[1..] + s;
      StripLeftPadded(lead[1..], s);
    } else {
      assert lead + s == s;
    }
  }

  lemma {:induction false} StripRightPadded(s: string, trail: string)
    requires forall i :: 0 <= i < |trail| ==> IsSpace(trail[i])
    requires |s| > 0 && !IsSpace(s[|s| - 1])
    ensures StripRight(s + trail) == s
  {
    if |trail| > 0 {
      assert (s + trail)[..|s + trail| - 1] == s + trail[..|trail| - 1];
      StripRightPadded(s, trail[..|trail| - 1]);
    } else {
      assert s + trail == s;
    }
  }

  function TakeWord(s: string): (r: string)
    decreases |s|
    ensures |r| <= |s| && r == s[..|r|]
    ensures forall i :: 0 <= i < |r| ==> !IsSpace(r[i])
    ensures |r| < |s| ==> IsSpace(s[|r|])
  {
    if |s| == 0 || IsSpace(s[0]) then [] else [s[0]] + TakeWord(s[1..])
  }

  /** A non-empty string without whitespace. */
  predicate IsWord(w: string) {
    |w| > 0 && forall i :: 0 <= i < |w| ==> !IsSpace(w[i])
  }

  /** The word at the head of a text that starts with a non-space character is non-empty. */
  lemma TakeWordIsWord(t: string)
    requires |t| > 0 && !IsSpace(t[0])
    ensures IsWord(TakeWord(t))
  {
  }

  /** A word in front of a list of words gives a list of words. */
  lemma ConsWords(w: string, rest: seq<string>)
    requires IsWord(w) && forall j :: 0 <= j < |rest| ==> IsWord(rest[j])
    ensures forall j :: 0 <= j < |rest| + 1 ==> IsWord(([w] + rest)[j])
  {
  }

  /** Python's `s.split()` with no argument: the maximal runs of non-space characters. */
  function SplitWs(s: string): (words: seq<string>)
    decreases |s|
    ensures forall j :: 0 <= j < |words| ==> IsWord(words[j])
  {
    var t := StripLeft(s);
    if |t| == 0 then []
    else
      var w := TakeWord(t);
      TakeWordIsWord(t);
      var u := t[|w|..];
      assert |u| < |s|;
      var rest := SplitWs(u);
      ConsWords(w, rest);
      [w] + rest
  }

  /** Python's `sep.join(parts)`. */
  function Join(parts: seq<string>, sep: string): string {
    if |parts| == 0 then ""
    else if |parts| == 1 then parts[0]
    else parts[0] + sep + Join(parts[1..], sep)
  }

  /** Python's `s.split(sep)` for a one-character separator: every segment, empty ones included. */
  function SplitOn(s: string, sep: char): (parts: seq<string>)
    decreases |s|
    ensures |parts| >= 1
    ensures forall p :: p in parts ==> forall i :: 0 <= i < |p| ==> p[i] != sep
  {
    if |s| == 0 then [""]
    else
      var rest := SplitOn(s[1..], sep);
      if s[0] == sep then [""] + rest else [[s[0]] + rest[0]] + rest[1..]
  }

  /** The segments of `SplitOn` that are non-empty (`[x for x in s.split(sep) if x]`). */
  function NonEmpty(parts: seq<string>): (r: seq<string>)
    ensures forall p :: p in r ==> p in parts && p != ""
    ensures |r| <= |parts|
  {
    if |parts| == 0 then []
    else if parts[0] == "" then NonEmpty(parts[1..])
    else [parts[0]] + NonEmpty(parts[1..])
  }

  /** Where `Strip(s)` starts inside `s`. */
  function StripStart(s: string): nat {
    |s| - |StripLeft(s)|
  }

  lemma StripIsSlice(s: string)
    ensures StripStart(s) + |Strip(s)| <= |s|
    ensures Strip(s) == s[StripStart(s)..StripStart(s) + |Strip(s)|]
    ensures |Strip(s)| > 0 ==> !IsSpace(Strip(s)[0]) && !IsSpace(Strip(s)[|Strip(s)| - 1])
  {
    var l := StripLeft(s);
    var t := StripRight(l);
    assert t == l[..|t|];
    if |t| > 0 {
      assert t[0] == l[0];
    }
  }

  lemma AllCharsSlice(s: string, lo: nat, hi: nat, q: char -> bool)
    requires lo <= hi <= |s| && AllChars(s, q)
    ensures AllChars(s[lo..hi], q)
  {
    assert forall i :: 0 <= i < hi - lo ==> s[lo..hi][i] == s[lo + i];
  }

  lemma NoTwoSlice(s: string, lo: nat, hi: nat, p: char -> bool)
    requires lo <= hi <= |s| && NoTwo(s, p)
    ensures NoTwo(s[lo..hi], p)
  {
    assert forall i :: 0 <= i < hi - lo ==> s[lo..hi][i] == s[lo + i];
  }

  // ---------------------------------------------------------------------
  // Rewriting
  // ---------------------------------------------------------------------

  /** Python's `s.replace(pat, rep)`: leftmost, non-overlapping occurrences. */
  function ReplaceAll(s: string, pat: string, rep: string): string
    requires |pat| > 0
    decreases |s|
  {
    if |s| == 0 then ""
    else if StartsWith(s, pat) then rep + ReplaceAll(s[|pat|..], pat, rep)
    else [s[0]] + ReplaceAll(s[1..], pat, rep)
  }

  /** Replacing a pattern the text does not contain leaves the text as it is. */
  lemma {:induction false} ReplaceAbsent(s: string, pat: string, rep: string)
    requires |pat| > 0 && !Contains(s, pat)
    ensures ReplaceAll(s, pat, rep) == s
    decreases |s|
  {
    if |s| > 0 {
      ReplaceAbsent(s[1..], pat, rep);
      assert s == [s[0]] + s[1..];
    }
  }

  /** Removing a leading pattern that does not recur removes just that occurrence. */
  lemma ReplaceLeading(pat: string, rest: string)
    requires |pat| > 0 && !Contains(rest, pat)
    ensures ReplaceAll(pat + rest, pat, "") == rest
  {
    assert (pat + rest)[..|pat|] == pat;
    assert (pat + rest)[|pat|..] == rest;
    ReplaceAbsent(rest, pat, "");
  }

  /** A text lacking one of the characters of `sub` does not contain `sub`. */
  lemma {:induction false} MissingCharNotContained(s: string, sub: string, k: nat)
    requires k < |sub|
    requires forall i :: 0 <= i < |s| ==> s[i] != sub[k]
    ensures !Contains(s, sub)
    decreases |s|
  {
    if |sub| <= |s| {
      assert s[..|sub|][k] == s[k];
    }
    if |s| > 0 {
      assert forall i :: 0 <= i < |s[1..]| ==> s[1..][i] == s[i + 1];
      MissingCharNotContained(s[1..], sub, k);
    }
  }

  /** Replacing one character by another rewrites exactly the positions that hold it. */
  lemma {:induction false} ReplaceChar(s: string, c: char, d: char)
    ensures |ReplaceAll(s, [c], [d])| == |s|
    ensures forall i :: 0 <= i < |s| ==> ReplaceAll(s, [c], [d])[i] == if s[i] == c then d else s[i]
  {
    if |s| > 0 {
      ReplaceChar(s[1..], c, d);
      assert StartsWith(s, [c]) <==> s[0] == c;
      if s[0] == c {
        assert s[|[c]|..] == s[1..];
      }
    }
  }

  /** `s.replace(c, "")` for one character. */
  function RemoveChar(s: string, c: char): (r: string)
    ensures forall i :: 0 <= i < |r| ==> r[i] != c
  {
    if |s| == 0 then ""
    else if s[0] == c then RemoveChar(s[1..], c)
    else [s[0]] + RemoveChar(s[1..], c)
  }

  lemma RemoveCharAppend(a: string, b: string, c: char)
    ensures RemoveChar(a + b, c) == RemoveChar(a, c) + RemoveChar(b, c)
  {
    if |a| > 0 {
      assert (a + b)[1..] == a[1..] + b;
      RemoveCharAppend(a[1..], b, c);
    } else {
      assert a + b == b;
    }
  }

  /** The characters of `s` that satisfy `keep`, in order. */
  function Filter(s: string, keep: char -> bool): (r: string)
    ensures |r| <= |s|
    ensures forall i :: 0 <= i < |r| ==> keep(r[i])
  {
    if |s| == 0 then ""
    else if keep(s[0]) then [s[0]] + Filter(s[1..], keep)
    else Filter(s[1..], keep)
  }

  /** Filtering works piece by piece on a concatenation. */
  lemma {:induction false} FilterAppend(a: string, b: string, keep: char -> bool)
    ensures Filter(a + b, keep) == Filter(a, keep) + Filter(b, keep)
    decreases |a|
  {
    if |a| > 0 {
      assert (a + b)[1..] == a[1..] + b;
      FilterAppend(a[1..], b, keep);
    } else {
      assert a + b == b;
    }
  }

  /** Filtering a text whose every character is kept leaves it as it is. */
  lemma {:induction false} FilterKeepsAll(s: string, keep: char -> bool)
    requires AllChars(s, keep)
    ensures Filter(s, keep) == s
    decreases |s|
  {
    if |s| > 0 {
      assert AllChars(s[1..], keep) by {
        assert forall i :: 0 <= i < |s| - 1 ==> s[1..][i] == s[i + 1];
      }
      FilterKeepsAll(s[1..], keep);
    }
  }

  /** Drops the leading run of characters in `cls`. */
  function DropRun(s: string, cls: char -> bool): (r: string)
    decreases |s|
    ensures |r| <= |s| && r == s[|s| - |r|..]
    ensures r == [] || !cls(r[0])
  {
    if |s| > 0 && cls(s[0]) then DropRun(s[1..], cls) else s
  }

  /** The leading run of characters in `cls`. */
  function TakeRun(s: string, cls: char -> bool): (r: string)
    decreases |s|
    ensures |r| <= |s| && r == s[..|r|]
    ensures forall i :: 0 <= i < |r| ==> cls(r[i])
    ensures |r| < |s| ==> !cls(s[|r|])
  {
    if |s| > 0 && cls(s[0]) then [s[0]] + TakeRun(s[1..], cls) else []
  }

  /** No two neighbouring characters both satisfy `p`. */
  predicate NoTwo(s: string, p: char -> bool) {
    forall i :: 0 <= i < |s| - 1 ==> !(p(s[i]) && p(s[i + 1]))
  }

  /** Every character satisfies `q`. */
  predicate AllChars(s: string, q: char -> bool) {
    forall i :: 0 <= i < |s| ==> q(s[i])
  }

  /** `re.sub("[cls]+", rep, s)`: every maximal run of `cls` characters becomes `rep`. */
  function SubRuns(s: string, cls: char -> bool, rep: string): string
    decreases |s|
  {
    if |s| == 0 then ""
    else if cls(s[0]) then rep + SubRuns(DropRun(s[1..], cls), cls, rep)
    else [s[0]] + SubRuns(s[1..], cls, rep)
  }

  lemma SubRunsFirst(s: string, cls: char -> bool, c: char)
    requires |s| > 0
    ensures var r := SubRuns(s, cls, [c]); |r| > 0 && r[0] == (if cls(s[0]) then c else s[0])
  {
  }

  /** A string without characters of the class is left as it is. */
  lemma {:induction false} SubRunsNone(s: string, cls: char -> bool, rep: string)
    requires forall i :: 0 <= i < |s| ==> !cls(s[i])
    ensures SubRuns(s, cls, rep) == s
    decreases |s|
  {
    if |s| > 0 {
      SubRunsNone(s[1..], cls, rep);
    }
  }

  /** A string whose runs of the class are already the single replacement character is left as it is. */
  lemma {:induction false} SubRunsSingles(s: string, cls: char -> bool, c: char)
    requires cls(c)
    requires forall i :: 0 <= i < |s| && cls(s[i]) ==> s[i] == c
    requires NoTwo(s, cls)
    ensures SubRuns(s, cls, [c]) == s
    decreases |s|
  {
    if |s| > 0 {
      SubRunsSingles(s[1..], cls, c);
      if cls(s[0]) {
        assert DropRun(s[1..], cls) == s[1..];
      }
    }
  }

  /** Characters outside the class survive, and the replacement is the only new character. */
  lemma {:induction false} SubRunsChars(s: string, cls: char -> bool, c: char, q: char -> bool)
    requires q(c)
    requires forall i :: 0 <= i < |s| && !cls(s[i]) ==> q(s[i])
    ensures AllChars(SubRuns(s, cls, [c]), q)
    decreases |s|
  {
    if |s| > 0 {
      if cls(s[0]) {
        var d := DropRun(s[1..], cls);
        forall i | 0 <= i < |d| && !cls(d[i]) ensures q(d[i]) {
          assert d[i] == s[|s| - |d| + i];
        }
        SubRunsChars(d, cls, c, q);
        var r' := SubRuns(d, cls, [c]);
        assert SubRuns(s, cls, [c]) == [c] + r';
      } else {
        var t := s[1..];
        assert forall i :: 0 <= i < |t| ==> t[i] == s[i + 1];
        SubRunsChars(t, cls, c, q);
        var r' := SubRuns(t, cls, [c]);
        assert SubRuns(s, cls, [c]) == [s[0]] + r';
      }
    }
  }

  /** After the rewrite no two neighbours are both in the class. */
  lemma {:induction false} SubRunsNoTwo(s: string, cls: char -> bool, c: char)
    requires cls(c)
    ensures NoTwo(SubRuns(s, cls, [c]), cls)
    decreases |s|
  {
    if |s| > 0 {
      if cls(s[0]) {
        var d := DropRun(s[1..], cls);
        SubRunsNoTwo(d, cls, c);
        if |d| > 0 { SubRunsFirst(d, cls, c); }
      } else {
        SubRunsNoTwo(s[1..], cls, c);
        if |s| > 1 { SubRunsFirst(s[1..], cls, c); }
      }
    }
  }

  /** Rewriting runs of one class keeps a no-neighbours property of characters outside it. */
  lemma {:induction false} SubRunsKeepsNoTwo(s: string, cls: char -> bool, c: char, p: char -> bool)
    requires !p(c)
    requires forall i :: 0 <= i < |s| && p(s[i]) ==> !cls(s[i])
    requires NoTwo(s, p)
    ensures NoTwo(SubRuns(s, cls, [c]), p)
    decreases |s|
  {
    if |s| > 0 {
      if cls(s[0]) {
        var d := DropRun(s[1..], cls);
        NoTwoSuffix(s, |s| - |d|, cls, p);
        SubRunsKeepsNoTwo(d, cls, c, p);
        NoTwoCons(c, SubRuns(d, cls, [c]), p);
      } else {
        NoTwoSuffix(s, 1, cls, p);
        SubRunsKeepsNoTwo(s[1..], cls, c, p);
        if |s| > 1 { SubRunsFirst(s[1..], cls, c); }
        NoTwoCons(s[0], SubRuns(s[1..], cls, [c]), p);
      }
    }
  }

  /** A suffix keeps both premises of `SubRunsKeepsNoTwo`. */
  lemma NoTwoSuffix(s: string, k: nat, cls: char -> bool, p: char -> bool)
    requires k <= |s|
    requires forall i :: 0 <= i < |s| && p(s[i]) ==> !cls(s[i])
    requires NoTwo(s, p)
    ensures forall i :: 0 <= i < |s[k..]| && p(s[k..][i]) ==> !cls(s[k..][i])
    ensures NoTwo(s[k..], p)
  {
    assert forall i :: 0 <= i < |s[k..]| ==> s[k..][i] == s[k + i];
  }

  /** A character in front of a text with no two neighbours in `p` keeps that, unless both it
      and the first character are in `p`. */
  lemma NoTwoCons(a: char, r: string, p: char -> bool)
    requires NoTwo(r, p)
    requires |r| > 0 && p(a) ==> !p(r[0])
    ensures NoTwo([a] + r, p)
  {
    var s := [a] + r;
    forall i | 0 <= i < |s| - 1
      ensures !(p(s[i]) && p(s[i + 1]))
    {
      if i > 0 {
        assert s[i] == r[i - 1] && s[i + 1] == r[i];
      }
    }
  }

  // ---------------------------------------------------------------------
  // Pattern-matching building blocks
  // ---------------------------------------------------------------------

  /** `\b` at position `i` of `t`. */
  predicate Boundary(t: string, i: nat)
    requires i <= |t|
  {
    (i > 0 && IsWordChar(t[i - 1])) != (i < |t| && IsWordChar(t[i]))
  }

  /** The end of the run of `cls` characters starting at `j`. */
  function RunEnd(t: string, j: nat, cls: char -> bool): (e: nat)
    requires j <= |t|
    decreases |t| - j
    ensures j <= e <= |t|
    ensures forall k :: j <= k < e ==> cls(t[k])
    ensures e < |t| ==> !cls(t[e])
  {
    if j < |t| && cls(t[j]) then RunEnd(t, j + 1, cls) else j
  }

  /** The pattern character `x` (a lower-case ASCII letter) under case-insensitive matching. */
  predicate MatchesI(c: char, x: char) { LowerChar(c) == x }

  /** The case-insensitive literal `w` at position `i`. */
  predicate LiteralAt(t: string, i: nat, w: string) {
    i + |w| <= |t| && forall k :: 0 <= k < |w| ==> MatchesI(t[i + k], w[k])
  }

  /** Once a run of `cls` characters from `j` is known to end at `e`, `RunEnd` finds `e`. */
  lemma {:induction false} RunEndAt(t: string, j: nat, e: nat, cls: char -> bool)
    requires j <= e <= |t|
    requires forall k :: j <= k < e ==> cls(t[k])
    requires e < |t| ==> !cls(t[e])
    ensures RunEnd(t, j, cls) == e
    decreases e - j
  {
    if j < e {
      RunEndAt(t, j + 1, e, cls);
    }
  }

  // ---------------------------------------------------------------------
  // Numbers
  // ---------------------------------------------------------------------

  predicate AllDigits(s: string) {
    forall i :: 0 <= i < |s| ==> IsDigit(s[i])
  }

  /** The value of a string of ASCII digits (Python's `int` on it). */
  function DigitsValue(s: string): nat
    requires AllDigits(s)
  {
    if |s| == 0 then 0 else DigitsValue(s[..|s| - 1]) * 10 + (s[|s| - 1] as int - '0' as int)
  }

  function DigitChar(d: nat): char
    requires d < 10
  {
    ('0' as int + d) as char
  }

  /** Python's `str(n)` for a natural number. */
  function NatToString(n: nat): (r: string)
    ensures |r| > 0 && AllDigits(r)
  {
    if n < 10 then [DigitChar(n)] else NatToString(n / 10) + [DigitChar(n % 10)]
  }

  /** Python's `str(i)` for any integer. */
  function IntToString(i: int): string {
    if i < 0 then "-" + NatToString(-i) else NatToString(i)
  }

  lemma {:induction false} NatToStringValue(n: nat)
    ensures DigitsValue(NatToString(n)) == n
  {
    if n >= 10 {
      NatToStringValue(n / 10);
      var s := NatToString(n);
      assert s[..|s| - 1] == NatToString(n / 10);
    }
  }

  /** The number of digits `str(n)` has for numbers below 10000. */
  lemma {:induction false} NatToStringLength(n: nat)
    ensures n < 10 ==> |NatToString(n)| == 1
    ensures 10 <= n < 100 ==> |NatToString(n)| == 2
    ensures 100 <= n < 1000 ==> |NatToString(n)| == 3
    ensures 1000 <= n < 10000 ==> |NatToString(n)| == 4
  {
    if n >= 10 {
      NatToStringLength(n / 10);
    }
  }

  /** ASCII digits with single underscores between them, as Python's `int` accepts them
      ("1_000"); no underscore at either end and never two in a row. */
  predicate UnderscoredDigits(d: string) {
    |d| > 0 && IsDigit(d[0]) && IsDigit(d[|d| - 1])
    && (forall i :: 0 <= i < |d| ==> IsDigit(d[i]) || d[i] == '_')
    && (forall i :: 0 <= i < |d| - 1 && d[i] == '_' ==> d[i + 1] != '_')
  }

  /** The value of unsigned digits as Python's `int` reads them, `None` when they are not
      underscored digits. */
  function GroupedValue(d: string): (r: Option<int>)
    ensures r.Some? <==> UnderscoredDigits(d)
    ensures r.Some? ==> r.value >= 0
  {
    if UnderscoredDigits(d) then Some(DigitsValue(Filter(d, IsDigit))) else None
  }

  /** Python's `int(s)` on text: optional surrounding whitespace, an optional sign, then ASCII
      digits, possibly grouped by single underscores; `None` where Python raises `ValueError`. */
  function ParseInt(s: string): (r: Option<int>)
    ensures r.Some? ==> (var t := Strip(s); |t| > 0)
  {
    var t := Strip(s);
    if |t| > 0 && (t[0] == '-' || t[0] == '+') then
      match GroupedValue(t[1..])
      case Some(v) => Some(if t[0] == '-' then -v else v)
      case None => None
    else GroupedValue(t)
  }

  /** Unsigned text that needs no stripping parses as its digits do. */
  lemma ParseIntUnsigned(t: string)
    requires Strip(t) == t && |t| > 0 && IsDigit(t[0])
    ensures ParseInt(t) == GroupedValue(t)
  {
    ParseIntNoSign(t);
  }

  /** Text whose stripped form starts with a digit parses as its stripped form does. */
  lemma ParseIntNoSign(s: string)
    requires |Strip(s)| > 0 && IsDigit(Strip(s)[0])
    ensures ParseInt(s) == GroupedValue(Strip(s))
  {
  }

  /** Text without whitespace at either end is its own strip. */
  lemma StripUnchanged(s: string)
    requires |s| > 0 && !IsSpace(s[0]) && !IsSpace(s[|s| - 1])
    ensures Strip(s) == s
  {
    StripLeftUnchanged(s);
    StripRightUnchanged(s);
  }

  /** A plain run of digits parses to its value. */
  lemma ParseIntDigits(s: string)
    requires |s| > 0 && AllDigits(s)
    ensures ParseInt(s) == Some(DigitsValue(s))
  {
    StripUnchanged(s);
    ParseIntUnsigned(s);
    FilterKeepsAll(s, IsDigit);
  }

  /** Two digit groups joined by one underscore are underscored digits. */
  lemma UnderscoreJoined(a: string, b: string)
    requires |a| > 0 && AllDigits(a) && |b| > 0 && AllDigits(b)
    ensures UnderscoredDigits(a + "_" + b)
  {
    var s := a + "_" + b;
    forall i | 0 <= i < |s|
      ensures IsDigit(s[i]) || s[i] == '_'
    {
      if i < |a| { assert s[i] == a[i]; } else if i > |a| { assert s[i] == b[i - |a| - 1]; }
    }
    forall i | 0 <= i < |s| - 1
      ensures s[i] == '_' ==> s[i + 1] != '_'
    {
      if i < |a| {
        assert s[i] == a[i];
      } else if i == |a| {
        assert s[i + 1] == b[0];
      } else {
        assert s[i] == b[i - |a| - 1];
      }
    }
  }

  /** Keeping the digits of two digit groups joined by an underscore drops the underscore. */
  lemma UnderscoreDropped(a: string, b: string)
    requires AllDigits(a) && AllDigits(b)
    ensures Filter(a + "_" + b, IsDigit) == a + b
  {
    FilterAppend(a + "_", b, IsDigit);
    FilterAppend(a, "_", IsDigit);
    FilterKeepsAll(a, IsDigit);
    FilterKeepsAll(b, IsDigit);
  }

  /** One underscore between two digit groups is skipped: "1_000" parses to 1000. */
  lemma ParseIntUnderscore(a: string, b: string)
    requires |a| > 0 && AllDigits(a) && |b| > 0 && AllDigits(b)
    ensures ParseInt(a + "_" + b) == Some(DigitsValue(a + b))
  {
    var s := a + "_" + b;
    assert s[0] == a[0] && s[|s| - 1] == b[|b| - 1];
    StripUnchanged(s);
    ParseIntUnsigned(s);
    UnderscoreJoined(a, b);
    UnderscoreDropped(a, b);
  }

  /** Two underscores in a row make the text unparsable. */
  lemma ParseIntDoubleUnderscore(a: string, b: string)
    requires |a| > 0 && AllDigits(a) && |b| > 0 && AllDigits(b)
    ensures ParseInt(a + "__" + b) == None
  {
    var s := a + "__" + b;
    assert s[0] == a[0] && s[|s| - 1] == b[|b| - 1];
    StripUnchanged(s);
    ParseIntUnsigned(s);
    assert s[|a|] == '_' && s[|a| + 1] == '_';
  }

}
