/** The relevance filter: look-alike normalisation, extraction of ThinkPad model codes and
    generations, and the accept/reject decision for one listing against a search query. */
module Relevance {
  import opened Text

  /** Query words that never count towards a token match. */
  const Stopwords: set<string> := {
    "lenovo", "thinkpad", "ibm", "ноутбук", "ноут", "laptop", "core", "intel", "amd",
    "i3", "i5", "i7", "i9", "ryzen", "ram", "ssd", "hdd", "gb", "tb", "fhd", "ips"
  }

  /** Heights and widths of screen resolutions, which the model-code pattern mistakes for `x` codes. */
  const ResolutionDims: set<string> := {
    "720", "768", "800", "900", "1024", "1080", "1100", "1200", "1280",
    "1440", "1600", "1800", "2000", "2160"
  }

  /** Codes the pattern can produce that name a processor, not a model. */
  const ProcessorCodes: set<string> := {"i3", "i5", "i7", "i9"}

  // ---------------------------------------------------------------------
  // Normalisation
  // ---------------------------------------------------------------------

  /** The look-alike table: Cyrillic letters of either case that look like Latin ones,
      and `ё`/`Ё`, mapped to the lower-case Latin letter. */
  function Translate(c: char): char {
    match c
    case 'а' => 'a'
    case 'в' => 'b'
    case 'с' => 'c'
    case 'е' => 'e'
    case 'н' => 'h'
    case 'к' => 'k'
    case 'м' => 'm'
    case 'о' => 'o'
    case 'р' => 'p'
    case 'т' => 't'
    case 'у' => 'y'
    case 'х' => 'x'
    case 'А' => 'a'
    case 'В' => 'b'
    case 'С' => 'c'
    case 'Е' => 'e'
    case 'Н' => 'h'
    case 'К' => 'k'
    case 'М' => 'm'
    case 'О' => 'o'
    case 'Р' => 'p'
    case 'Т' => 't'
    case 'У' => 'y'
    case 'Х' => 'x'
    case 'ё' => 'e'
    case 'Ё' => 'e'
    case _ => c
  }

  /** `str.translate` with the look-alike table. */
  function TranslateAll(s: string): (r: string)
    ensures |r| == |s| && forall i :: 0 <= i < |s| ==> r[i] == Translate(s[i])
  {
    seq(|s|, i requires 0 <= i < |s| => Translate(s[i]))
  }

  /** The class `[^\w\s\-]`: characters that are cleaned away. */
  predicate IsJunk(c: char) { !IsWordChar(c) && !IsSpace(c) && c != '-' }

  predicate NotJunk(c: char) { !IsJunk(c) }

  /** Whitespace in tidied text is the plain space. */
  predicate SpaceIsBlank(c: char) { IsSpace(c) ==> c == ' ' }

  /** The clean-up both normalisations end with: runs of junk become one space, runs of
      whitespace become one space, and the result is stripped. */
  function Tidy(s: string): string {
    Strip(SubRuns(SubRuns(s, IsJunk, " "), IsSpace, " "))
  }

  /** `normalize_text`: lower-case, `ё` to `е`, then the clean-up. */
  function NormalizeText(s: string): string {
    Tidy(ReplaceAll(Lower(s), "ё", "е"))
  }

  /** `normalize_for_models`: strip (blank text gives ""), the look-alike table, lower-case,
      then the clean-up. */
  function NormalizeForModels(s: string): string {
    var t := Strip(s);
    if t == "" then "" else Tidy(Lower(TranslateAll(t)))
  }

  /** The table and lower-casing together, on one character. */
  function Fold(c: char): char { LowerChar(Translate(c)) }

  /** A character that the table and lower-casing leave alone. */
  predicate FoldFixed(c: char) { Translate(c) == c && LowerChar(c) == c }

  /** A character that lower-casing and the `ё` rewrite leave alone. */
  predicate TextFixed(c: char) { LowerChar(c) == c && c != 'ё' }

  /** The shape the clean-up leaves: no junk, only plain single spaces, none at the ends. */
  predicate Tidied(t: string) {
    AllChars(t, NotJunk) && AllChars(t, SpaceIsBlank) && NoTwo(t, IsSpace)
    && (|t| > 0 ==> !IsSpace(t[0]) && !IsSpace(t[|t| - 1]))
  }

  /** The shape of `normalize_for_models` output. */
  predicate ModelsNormal(t: string) { AllChars(t, FoldFixed) && Tidied(t) }

  /** The shape of `normalize_text` output. */
  predicate TextNormal(t: string) { AllChars(t, TextFixed) && Tidied(t) }

  lemma FoldIsFixed(c: char)
    ensures FoldFixed(Fold(c))
  {
    if Translate(c) != c {
      TranslateGivesLatin(c);
    } else {
      LowerOfUntranslated(c);
    }
  }

  /** A character the table changes becomes a lower-case Latin letter. */
  lemma TranslateGivesLatin(c: char)
    requires Translate(c) != c
    ensures IsAsciiLower(Translate(c))
  {
  }

  /** Lower-casing a character the table leaves alone gives one the table and lower-casing
      leave alone. */
  lemma LowerOfUntranslated(c: char)
    requires Translate(c) == c
    ensures FoldFixed(LowerChar(c))
  {
  }

  lemma FoldKeepsSpace(c: char)
    ensures IsSpace(Fold(c)) <==> IsSpace(c)
  {
    if Translate(c) != c {
      TranslateGivesLatin(c);
      TranslatedNotSpace(c);
    }
  }

  /** The characters the table changes are letters, not whitespace. */
  lemma TranslatedNotSpace(c: char)
    requires Translate(c) != c
    ensures !IsSpace(c)
  {
  }

  /** The clean-up keeps a character property that holds of the space, and leaves the tidied shape. */
  lemma TidyShape(s: string, ok: char -> bool)
    requires ok(' ') && AllChars(s, ok)
    ensures AllChars(Tidy(s), ok) && Tidied(Tidy(s))
  {
    var s1 := SubRuns(s, IsJunk, " ");
    var s2 := SubRuns(s1, IsSpace, " ");
    SubRunsChars(s, IsJunk, ' ', ok);
    SubRunsChars(s1, IsSpace, ' ', ok);
    StripKeeps(s2, ok);
    TidyTidied(s);
  }

  /** The clean-up leaves the tidied shape. */
  lemma TidyTidied(s: string)
    ensures Tidied(Tidy(s))
  {
    var s1 := SubRuns(s, IsJunk, " ");
    var s2 := SubRuns(s1, IsSpace, " ");
    SubRunsChars(s, IsJunk, ' ', NotJunk);
    SubRunsChars(s1, IsSpace, ' ', NotJunk);
    SubRunsChars(s1, IsSpace, ' ', SpaceIsBlank);
    SubRunsNoTwo(s1, IsSpace, ' ');
    StripKeeps(s2, NotJunk);
    StripKeeps(s2, SpaceIsBlank);
    StripKeepsNoTwo(s2, IsSpace);
    StripIsSlice(s2);
  }

  /** Stripping keeps a property of every character. */
  lemma StripKeeps(s: string, q: char -> bool)
    requires AllChars(s, q)
    ensures AllChars(Strip(s), q)
  {
    StripIsSlice(s);
    AllCharsSlice(s, StripStart(s), StripStart(s) + |Strip(s)|, q);
  }

  /** Stripping keeps two neighbours from both satisfying `p`. */
  lemma StripKeepsNoTwo(s: string, p: char -> bool)
    requires NoTwo(s, p)
    ensures NoTwo(Strip(s), p)
  {
    StripIsSlice(s);
    NoTwoSlice(s, StripStart(s), StripStart(s) + |Strip(s)|, p);
  }

  /** The clean-up leaves tidied text as it is. */
  lemma TidyFixed(t: string)
    requires Tidied(t)
    ensures Tidy(t) == t
  {
    SubRunsNone(t, IsJunk, " ");
    SubRunsSingles(t, IsSpace, ' ');
    if |t| > 0 {
      assert StripLeft(t) == t;
      assert StripRight(t) == t;
    }
  }

  /** Blank text has nothing left after stripping. */
  lemma {:induction false} StripBlank(s: string)
    requires AllChars(s, IsSpace)
    ensures Strip(s) == ""
    decreases |s|
  {
    if |s| > 0 {
      assert AllChars(s[1..], IsSpace) by {
        assert forall i :: 0 <= i < |s| - 1 ==> s[1..][i] == s[i + 1];
      }
      StripBlank(s[1..]);
    }
  }

  /** Empty and whitespace-only text normalises to "". */
  lemma BlankNormalisesEmpty(s: string)
    requires AllChars(s, IsSpace)
    ensures NormalizeForModels(s) == ""
  {
    StripBlank(s);
  }

  /** Every output of `normalize_for_models` is in normal form. */
  lemma ModelsNormalOutput(s: string)
    ensures ModelsNormal(NormalizeForModels(s))
  {
    var t := Strip(s);
    if t != "" {
      var u := Lower(TranslateAll(t));
      FoldAllFixed(t);
      SpaceFoldFixed();
      TidyShape(u, FoldFixed);
    }
  }

  /** Every character of folded text is left alone by a second fold. */
  lemma FoldAllFixed(t: string)
    ensures AllChars(Lower(TranslateAll(t)), FoldFixed)
  {
    var u := Lower(TranslateAll(t));
    forall i | 0 <= i < |u| ensures FoldFixed(u[i]) {
      assert u[i] == Fold(t[i]);
      FoldIsFixed(t[i]);
    }
  }

  lemma SpaceFoldFixed()
    ensures FoldFixed(' ')
  {
  }

  /** Text in normal form is left as it is. */
  lemma ModelsNormalFixed(t: string)
    requires ModelsNormal(t)
    ensures NormalizeForModels(t) == t
  {
    if |t| > 0 {
      assert StripLeft(t) == t;
      assert StripRight(t) == t;
      assert Lower(TranslateAll(t)) == t;
      TidyFixed(t);
    }
  }

  /** Normalising for models twice is normalising once. */
  lemma NormalizeForModelsIdempotent(s: string)
    ensures NormalizeForModels(NormalizeForModels(s)) == NormalizeForModels(s)
  {
    ModelsNormalOutput(s);
    ModelsNormalFixed(NormalizeForModels(s));
  }

  /** Every output of `normalize_text` is in normal form. */
  lemma TextNormalOutput(s: string)
    ensures TextNormal(NormalizeText(s))
  {
    var l := Lower(s);
    ReplaceChar(l, 'ё', 'е');
    var u := ReplaceAll(l, "ё", "е");
    forall i | 0 <= i < |u|
      ensures TextFixed(u[i])
    {
      LowerCharTwice(s[i]);
    }
    assert AllChars(u, TextFixed);
    TidyShape(u, TextFixed);
  }

  /** Text in normal form is left as it is. */
  lemma TextNormalFixed(t: string)
    requires TextNormal(t)
    ensures NormalizeText(t) == t
  {
    assert Lower(t) == t;
    ReplaceChar(t, 'ё', 'е');
    assert ReplaceAll(t, "ё", "е") == t;
    TidyFixed(t);
  }

  /** Normalising text twice is normalising once. */
  lemma NormalizeTextIdempotent(s: string)
    ensures NormalizeText(NormalizeText(s)) == NormalizeText(s)
  {
    TextNormalOutput(s);
    TextNormalFixed(NormalizeText(s));
  }

  /** Stripping depends only on where the whitespace is. */
  lemma {:induction false} StripLeftSamePattern(a: string, b: string)
    requires |a| == |b| && forall i :: 0 <= i < |a| ==> (IsSpace(a[i]) <==> IsSpace(b[i]))
    ensures |StripLeft(a)| == |StripLeft(b)|
    decreases |a|
  {
    if |a| > 0 {
      StripLeftSamePattern(a[1..], b[1..]);
    }
  }

  lemma {:induction false} StripRightSamePattern(a: string, b: string)
    requires |a| == |b| && forall i :: 0 <= i < |a| ==> (IsSpace(a[i]) <==> IsSpace(b[i]))
    ensures |StripRight(a)| == |StripRight(b)|
    decreases |a|
  {
    if |a| > 0 {
      StripRightSamePattern(a[..|a| - 1], b[..|b| - 1]);
    }
  }

  lemma StripSamePattern(a: string, b: string)
    requires |a| == |b| && forall i :: 0 <= i < |a| ==> (IsSpace(a[i]) <==> IsSpace(b[i]))
    ensures StripStart(a) == StripStart(b) && |Strip(a)| == |Strip(b)|
  {
    StripLeftSamePattern(a, b);
    var la, lb := StripLeft(a), StripLeft(b);
    var n := |a| - |la|;
    assert la == a[n..] && lb == b[n..];
    forall i | 0 <= i < |la| ensures IsSpace(la[i]) <==> IsSpace(lb[i]) {
      assert la[i] == a[n + i] && lb[i] == b[n + i];
    }
    StripRightSamePattern(la, lb);
  }

  /** Two spellings that differ only in look-alike letters or case normalise alike. */
  lemma LookAlikesNormaliseAlike(a: string, b: string)
    requires |a| == |b| && forall i :: 0 <= i < |a| ==> Fold(a[i]) == Fold(b[i])
    ensures NormalizeForModels(a) == NormalizeForModels(b)
  {
    SameSpaces(a, b);
    StripSamePattern(a, b);
    StrippedAlike(a, b);
    FoldedAlike(Strip(a), Strip(b));
  }

  /** Characters that fold alike are both whitespace or both not. */
  lemma SameSpaces(a: string, b: string)
    requires |a| == |b| && forall i :: 0 <= i < |a| ==> Fold(a[i]) == Fold(b[i])
    ensures forall i :: 0 <= i < |a| ==> (IsSpace(a[i]) <==> IsSpace(b[i]))
  {
    forall i | 0 <= i < |a| ensures IsSpace(a[i]) <==> IsSpace(b[i]) {
      FoldKeepsSpace(a[i]);
      FoldKeepsSpace(b[i]);
    }
  }

  /** Stripping the same positions off texts that fold alike leaves texts that fold alike. */
  lemma StrippedAlike(a: string, b: string)
    requires |a| == |b| && forall i :: 0 <= i < |a| ==> Fold(a[i]) == Fold(b[i])
    requires StripStart(a) == StripStart(b) && |Strip(a)| == |Strip(b)|
    ensures forall i :: 0 <= i < |Strip(a)| ==> Fold(Strip(a)[i]) == Fold(Strip(b)[i])
  {
    StripIsSlice(a);
    StripIsSlice(b);
    var ta, tb := Strip(a), Strip(b);
    var n := StripStart(a);
    forall i | 0 <= i < |ta| ensures Fold(ta[i]) == Fold(tb[i]) {
      assert ta[i] == a[n + i] && tb[i] == b[n + i];
    }
  }

  /** Texts that fold alike character by character are folded to the same text. */
  lemma FoldedAlike(ta: string, tb: string)
    requires |ta| == |tb| && forall i :: 0 <= i < |ta| ==> Fold(ta[i]) == Fold(tb[i])
    ensures Lower(TranslateAll(ta)) == Lower(TranslateAll(tb))
  {
    var ua, ub := Lower(TranslateAll(ta)), Lower(TranslateAll(tb));
    forall i | 0 <= i < |ua| ensures ua[i] == ub[i] {
      assert ua[i] == Fold(ta[i]) && ub[i] == Fold(tb[i]);
    }
  }

  /** Writing one letter with a look-alike of it, such as Cyrillic `т` for Latin `t`, changes
      nothing after normalisation. */
  lemma SwapLookAlike(pre: string, c: char, d: char, post: string)
    requires Fold(c) == Fold(d)
    ensures NormalizeForModels(pre + [c] + post) == NormalizeForModels(pre + [d] + post)
  {
    var a, b := pre + [c] + post, pre + [d] + post;
    forall i | 0 <= i < |a| ensures Fold(a[i]) == Fold(b[i]) {
      if i < |pre| {
        assert a[i] == pre[i] == b[i];
      } else if i > |pre| {
        assert a[i] == post[i - |pre| - 1] == b[i];
      }
    }
    LookAlikesNormaliseAlike(a, b);
  }

  /** The table sends the Cyrillic spelling of the model letters, of either case, to Latin. */
  lemma CyrillicModelLetters()
    ensures Fold('т') == Fold('t') && Fold('Т') == Fold('t') && Fold('Х') == Fold('x')
    ensures Fold('р') == Fold('p') && Fold('Е') == Fold('E') && Fold('Ё') == Fold('e')
  {
    FoldsTo('т', 't');
    FoldsTo('Т', 't');
    FoldsTo('Х', 'x');
    FoldsTo('р', 'p');
    FoldsTo('Е', 'e');
    FoldsTo('Ё', 'e');
    assert Fold('E') == 'e';
  }

  lemma FoldsTo(c: char, l: char)
    requires Translate(c) == l && IsAsciiLower(l)
    ensures Fold(c) == l && Fold(l) == l
  {
  }

  // ---------------------------------------------------------------------
  // Pattern matching building blocks
  // ---------------------------------------------------------------------

  /** Where `\s*` followed by an optional separator and `\s*` ends. Since a separator is not
      whitespace, the greedy reading is the only one that can be followed by a digit. */
  function SkipSeparator(t: string, j: nat, sep: char -> bool): (e: nat)
    requires j <= |t|
    ensures j <= e <= |t|
  {
    var a := RunEnd(t, j, IsSpace);
    var b := if a < |t| && sep(t[a]) then a + 1 else a;
    RunEnd(t, b, IsSpace)
  }

  predicate IsHyphenSep(c: char) { c == '-' }

  predicate IsGenSep(c: char) { c == '-' || c == ':' }

  lemma DigitsBelow(s: string)
    requires AllDigits(s) && |s| <= 2
    ensures DigitsValue(s) <= 99
  {
    if |s| == 2 {
      assert DigitsValue(s[..1]) <= 9 by {
        assert s[..1][..0] == [];
      }
    } else if |s| == 1 {
      assert s[..0] == [];
    }
  }

  /** The leftmost position in `i..n` where `at` succeeds, with its result (`re.search`). */
  function Search<T>(at: nat -> Option<T>, n: nat, i: nat): (r: Option<T>)
    decreases n - i
    ensures r.Some? ==> exists j :: i <= j < n && at(j) == r
  {
    if i >= n then None
    else if at(i).Some? then at(i)
    else Search(at, n, i + 1)
  }

  /** The search finds the leftmost success, and nothing exactly when every position fails. */
  lemma {:induction false} SearchLeftmost<T>(at: nat -> Option<T>, n: nat, i: nat)
    ensures Search(at, n, i).None? ==> forall j :: i <= j < n ==> at(j).None?
    ensures Search(at, n, i).Some? ==>
      (exists j :: i <= j < n && at(j) == Search(at, n, i)
         && forall k :: i <= k < j ==> at(k).None?)
    decreases n - i
  {
    if i < n {
      if at(i).None? {
        SearchLeftmost(at, n, i + 1);
      } else {
        assert at(i) == Search(at, n, i);
      }
    }
  }

  // ---------------------------------------------------------------------
  // Model codes
  // ---------------------------------------------------------------------

  /** One match of the model-code pattern `\b([a-z])\s*-?\s*(\d{2,4})([a-z]{0,2})\b`. */
  datatype CodeMatch = CodeMatch(start: nat, letter: char, digits: string, suffix: string, end: nat)

  predicate WellFormed(m: CodeMatch) {
    IsAsciiLetter(m.letter) && 2 <= |m.digits| <= 4 && AllDigits(m.digits)
    && |m.suffix| <= 2 && AllChars(m.suffix, IsAsciiLetter) && m.start < m.end
  }

  /** The shape of a model code: a lower-case letter, two to four digits, up to two lower-case letters. */
  predicate CodeShape(c: string) {
    |c| > 0 && IsAsciiLower(c[0])
    && var n := RunEnd(c, 1, IsDigit) - 1;
    2 <= n <= 4 && |c| <= 3 + n && forall k :: 1 + n <= k < |c| ==> IsAsciiLower(c[k])
  }

  /** The code a match stands for, as `letter + digits + suffix` lower-cased. */
  function CodeOf(m: CodeMatch): (c: string)
    requires WellFormed(m)
    ensures CodeShape(c)
  {
    var c := [LowerChar(m.letter)] + m.digits + Lower(m.suffix);
    RunEndAt(c, 1, 1 + |m.digits|, IsDigit);
    c
  }

  /** The pattern tried at position `i`. A digit run must be taken whole and be followed by at
      most two letters and then a non-word character, which is what backtracking leaves. */
  function CodeAt(t: string, i: nat): (r: Option<CodeMatch>)
    ensures r.Some? ==> WellFormed(r.value) && r.value.start == i && r.value.end <= |t|
  {
    if i < |t| && Boundary(t, i) && IsAsciiLetter(t[i]) then
      var p := SkipSeparator(t, i + 1, IsHyphenSep);
      var q := RunEnd(t, p, IsDigit);
      var e := RunEnd(t, q, IsAsciiLetter);
      if 2 <= q - p <= 4 && e - q <= 2 && Boundary(t, e) then
        Some(CodeMatch(i, t[i], t[p..q], t[q..e], e))
      else None
    else None
  }

  /** The leftmost match at or after `i`. */
  function FirstCode(t: string, i: nat): (r: Option<CodeMatch>)
    ensures r.Some? ==> WellFormed(r.value) && i <= r.value.start && r.value.end <= |t|
  {
    Search(j => CodeAt(t, j), |t|, i)
  }

  /** `extract_primary_model_code`: the code of the first match in the normalised query. */
  function ExtractPrimaryModelCode(query: string): (r: Option<string>)
    ensures r.Some? ==> CodeShape(r.value)
  {
    match FirstCode(NormalizeForModels(query), 0)
    case None => None
    case Some(m) => Some(CodeOf(m))
  }

  /** Position `j` holds a match and no position before it does. */
  predicate LeftmostAt(t: string, j: int) {
    0 <= j < |t| && CodeAt(t, j).Some? && forall k :: 0 <= k < j ==> CodeAt(t, k).None?
  }

  /** The primary code is the code of the leftmost match in the normalised query, and there is
      none exactly when no position matches. */
  lemma PrimaryIsLeftmost(query: string)
    ensures var t := NormalizeForModels(query);
      (ExtractPrimaryModelCode(query).None? <==> forall j :: 0 <= j < |t| ==> CodeAt(t, j).None?)
      && (ExtractPrimaryModelCode(query).Some? ==>
            exists j :: LeftmostAt(t, j) && ExtractPrimaryModelCode(query).value == CodeOf(CodeAt(t, j).value))
  {
    var t := NormalizeForModels(query);
    FirstCodeLeftmost(t);
    var f := FirstCode(t, 0);
    if f.Some? {
      var j :| 0 <= j < |t| && CodeAt(t, j) == f && forall k :: 0 <= k < j ==> CodeAt(t, k).None?;
      assert LeftmostAt(t, j);
      assert ExtractPrimaryModelCode(query) == Some(CodeOf(f.value));
    }
  }

  lemma FirstCodeLeftmost(t: string)
    ensures FirstCode(t, 0).None? <==> forall j :: 0 <= j < |t| ==> CodeAt(t, j).None?
    ensures FirstCode(t, 0).Some? ==>
      exists j :: 0 <= j < |t| && CodeAt(t, j) == FirstCode(t, 0)
        && forall k :: 0 <= k < j ==> CodeAt(t, k).None?
  {
    var at := j => CodeAt(t, j);
    SearchLeftmost(at, |t|, 0);
    assert forall j :: at(j) == CodeAt(t, j);
  }

  /** The trailing run of ASCII digits of `u`. */
  function DigitTail(u: string): (k: nat)
    ensures k <= |u|
  {
    if |u| > 0 && IsDigit(u[|u| - 1]) then DigitTail(u[..|u| - 1]) + 1 else 0
  }

  /** `\b\d{3,4}$`: the text ends in a three- or four-digit number that starts a word. */
  predicate NumberAtEnd(u: string) {
    var k := DigitTail(u);
    3 <= k <= 4 && Boundary(u, |u| - k)
  }

  /** The left context of a match looks like the first half of a resolution: a 3–4 digit number,
      optionally followed by ` x`, then spaces (the two searches and the no-space search). */
  predicate ResolutionContext(ctx: string) {
    var u := StripRight(ctx);
    NumberAtEnd(u)
    || (|u| > 0 && u[|u| - 1] == 'x' && NumberAtEnd(StripRight(u[..|u| - 1])))
    || NumberAtEnd(ctx)
  }

  /** Up to 16 characters before position `start`. */
  function LeftContext(t: string, start: nat): string
    requires start <= |t|
  {
    t[(if start >= 16 then start - 16 else 0)..start]
  }

  /** Whether a match's code is collected: not a processor, and not the second half of a resolution. */
  predicate Kept(t: string, m: CodeMatch)
    requires WellFormed(m) && m.start <= |t|
  {
    CodeOf(m) !in ProcessorCodes
    && !(LowerChar(m.letter) == 'x' && Lower(m.suffix) == "" && m.digits in ResolutionDims
         && ResolutionContext(LeftContext(t, m.start)))
  }

  /** The codes collected by scanning `t` from `i`, match by match without overlap (`finditer`). */
  function CodesFrom(t: string, i: nat): (codes: set<string>)
    decreases |t| - i
    ensures forall c :: c in codes ==> CodeShape(c)
  {
    match FirstCode(t, i)
    case None => {}
    case Some(m) => (if Kept(t, m) then {CodeOf(m)} else {}) + CodesFrom(t, m.end)
  }

  lemma {:induction false} CodesFromStep(t: string, i: nat)
    requires i < |t|
    ensures CodeAt(t, i).None? ==> CodesFrom(t, i) == CodesFrom(t, i + 1)
    ensures CodeAt(t, i).Some? ==>
      var m := CodeAt(t, i).value;
      CodesFrom(t, i) == (if Kept(t, m) then {CodeOf(m)} else {}) + CodesFrom(t, m.end)
  {
  }

  /** `extract_all_model_codes`: the kept codes of all matches in the normalised text. */
  method ExtractAllModelCodes(text: string) returns (codes: set<string>)
    ensures codes == AllModelCodes(text)
    ensures forall c :: c in codes ==> CodeShape(c)
  {
    codes := CollectCodes(NormalizeForModels(text));
  }

  /** The `finditer` loop over normalised text. */
  method CollectCodes(t: string) returns (codes: set<string>)
    ensures codes == CodesFrom(t, 0)
  {
    codes := {};
    var i := 0;
    while i < |t|
      invariant 0 <= i <= |t|
      invariant codes + CodesFrom(t, i) == CodesFrom(t, 0)
      decreases |t| - i
    {
      codes, i := VisitPosition(t, i, codes);
    }
  }

  /** One round of the loop: try the pattern at `i`; on a match, collect its code unless it is
      filtered out and resume after the match, otherwise move one character on. */
  method VisitPosition(t: string, i: nat, codes: set<string>) returns (codes': set<string>, i': nat)
    requires i < |t|
    ensures i < i' <= |t|
    ensures codes' + CodesFrom(t, i') == codes + CodesFrom(t, i)
  {
    CodesFromStep(t, i);
    var m := CodeAt(t, i);
    if m.Some? {
      var gain: set<string> := {};
      if Kept(t, m.value) {
        gain := {CodeOf(m.value)};
      }
      codes' := codes + gain;
      i' := m.value.end;
      UnionShift(codes, gain, CodesFrom(t, i'), CodesFrom(t, i));
    } else {
      codes' := codes;
      i' := i + 1;
    }
  }

  lemma UnionShift<T>(acc: set<T>, gain: set<T>, rest: set<T>, whole: set<T>)
    requires whole == gain + rest
    ensures (acc + gain) + rest == acc + whole
  {
  }

  /** The specification of `extract_all_model_codes` as a function, for use in the decision. */
  function AllModelCodes(text: string): set<string> {
    CodesFrom(NormalizeForModels(text), 0)
  }

  lemma {:induction false} DigitTailDigits(a: string, n: string)
    requires AllDigits(n)
    requires a == [] || !IsDigit(a[|a| - 1])
    ensures DigitTail(a + n) == |n|
    decreases |n|
  {
    if |n| > 0 {
      assert (a + n)[..|a + n| - 1] == a + n[..|n| - 1];
      DigitTailDigits(a, n[..|n| - 1]);
    } else {
      assert a + n == a;
    }
  }

  /** A 3–4 digit number that starts a word, followed by spaces, is a resolution context. */
  lemma ResolutionContextOf(pre: string, n: string, sp: string)
    requires AllDigits(n) && 3 <= |n| <= 4 && AllChars(sp, IsSpace)
    requires pre == [] || !IsWordChar(pre[|pre| - 1])
    ensures ResolutionContext(pre + n + sp)
  {
    StripRightPadded(pre + n, sp);
    DigitTailDigits(pre, n);
    var u := pre + n;
    assert |pre| > 0 ==> u[|pre| - 1] == pre[|pre| - 1];
  }

  /** An `x` code with no suffix and a resolution dimension as digits is dropped when the text
      just before it is a 3–4 digit number followed by spaces, as in "1920 x 1200". */
  lemma ResolutionDropped(t: string, i: nat, pre: string, n: string, sp: string)
    requires CodeAt(t, i).Some?
    requires var m := CodeAt(t, i).value;
      LowerChar(m.letter) == 'x' && m.suffix == "" && m.digits in ResolutionDims
    requires AllDigits(n) && 3 <= |n| <= 4 && AllChars(sp, IsSpace) && |n| + |sp| <= 16
    requires i == |pre| + |n| + |sp| && t[..i] == pre + n + sp
    requires pre == [] || !IsWordChar(pre[|pre| - 1])
    ensures !Kept(t, CodeAt(t, i).value)
  {
    var lo := if i >= 16 then i - 16 else 0;
    LeftContextShape(t, i, pre, n, sp);
    var pre' := pre[lo..];
    assert pre' == [] || pre'[|pre'| - 1] == pre[|pre| - 1];
    ResolutionContextOf(pre', n, sp);
  }

  /** The left context of a position preceded by `pre + n + sp`, with `n + sp` at most 16
      long, ends in `n + sp`. */
  lemma LeftContextShape(t: string, i: nat, pre: string, n: string, sp: string)
    requires |n| + |sp| <= 16 && i == |pre| + |n| + |sp| && i <= |t| && t[..i] == pre + n + sp
    ensures LeftContext(t, i) == pre[(if i >= 16 then i - 16 else 0)..] + n + sp
  {
    var lo := if i >= 16 then i - 16 else 0;
    assert LeftContext(t, i) == t[..i][lo..];
    assert (pre + n + sp)[lo..] == pre[lo..] + n + sp;
  }

  /** The primary code of a text is collected from it too, unless it is a processor code or
      the second half of a resolution. */
  lemma PrimaryAmongAll(text: string)
    requires ExtractPrimaryModelCode(text).Some?
    requires var t := NormalizeForModels(text); Kept(t, FirstCode(t, 0).value)
    ensures ExtractPrimaryModelCode(text).value in AllModelCodes(text)
  {
  }

  // ---------------------------------------------------------------------
  // Generations
  // ---------------------------------------------------------------------

  /** `\bgen\s*[-:]?\s*(\d{1,2})\b` at position `i`. */
  function GenAt(t: string, i: nat): (r: Option<nat>)
    ensures r.Some? ==> r.value <= 99
  {
    if i < |t| && Boundary(t, i) && LiteralAt(t, i, "gen") then
      var p := SkipSeparator(t, i + 3, IsGenSep);
      var q := RunEnd(t, p, IsDigit);
      if 1 <= q - p <= 2 && Boundary(t, q) then
        DigitsBelow(t[p..q]);
        Some(DigitsValue(t[p..q]))
      else None
    else None
  }

  predicate IsOrdinal(t: string, i: nat) {
    LiteralAt(t, i, "st") || LiteralAt(t, i, "nd") || LiteralAt(t, i, "rd") || LiteralAt(t, i, "th")
  }

  /** `\b(\d{1,2})(?:st|nd|rd|th)\s*gen\b` at position `i`. */
  function OrdinalGenAt(t: string, i: nat): (r: Option<nat>)
    ensures r.Some? ==> r.value <= 99
  {
    if i < |t| && Boundary(t, i) then
      var q := RunEnd(t, i, IsDigit);
      if 1 <= q - i <= 2 && IsOrdinal(t, q) then
        var g := RunEnd(t, q + 2, IsSpace);
        if LiteralAt(t, g, "gen") && Boundary(t, g + 3) then
          DigitsBelow(t[i..q]);
          Some(DigitsValue(t[i..q]))
        else None
      else None
    else None
  }

  /** `\bg\s*(\d{1,2})\b` at position `i`. */
  function GTokenAt(t: string, i: nat): (r: Option<nat>)
    ensures r.Some? ==> r.value <= 99
  {
    if i < |t| && Boundary(t, i) && MatchesI(t[i], 'g') then
      var p := RunEnd(t, i + 1, IsSpace);
      var q := RunEnd(t, p, IsDigit);
      if 1 <= q - p <= 2 && Boundary(t, q) then
        DigitsBelow(t[p..q]);
        Some(DigitsValue(t[p..q]))
      else None
    else None
  }

  /** The three generation patterns, in the order they are tried. */
  datatype GenPattern = GenWord | OrdinalGen | GToken

  function PatternAt(pat: GenPattern, t: string, i: nat): (r: Option<nat>)
    ensures r.Some? ==> r.value <= 99
  {
    match pat
    case GenWord => GenAt(t, i)
    case OrdinalGen => OrdinalGenAt(t, i)
    case GToken => GTokenAt(t, i)
  }

  /** The number of the leftmost match of a generation pattern in `t`. */
  function FirstGen(pat: GenPattern, t: string): (r: Option<nat>)
    ensures r.Some? ==> r.value <= 99
  {
    Search(j => PatternAt(pat, t, j), |t|, 0)
  }

  predicate NoMatch(pat: GenPattern, t: string) {
    forall j :: 0 <= j < |t| ==> PatternAt(pat, t, j).None?
  }

  /** `v` is the number of the leftmost match of the pattern. */
  predicate LeftmostGen(pat: GenPattern, t: string, v: nat) {
    exists j :: 0 <= j < |t| && PatternAt(pat, t, j) == Some(v)
      && forall k :: 0 <= k < j ==> PatternAt(pat, t, k).None?
  }

  lemma FirstGenLeftmost(pat: GenPattern, t: string)
    ensures FirstGen(pat, t).None? <==> NoMatch(pat, t)
    ensures FirstGen(pat, t).Some? ==> LeftmostGen(pat, t, FirstGen(pat, t).value)
  {
    var at := j => PatternAt(pat, t, j);
    SearchLeftmost(at, |t|, 0);
    assert forall j :: at(j) == PatternAt(pat, t, j);
  }

  /** `extract_generation`: "gen N" first, then "Nth gen", then a standalone "gN", each by its
      leftmost match in the normalised text. */
  function ExtractGeneration(text: string): (r: Option<nat>)
    ensures r.Some? ==> r.value <= 99
  {
    var t := NormalizeForModels(text);
    var g := FirstGen(GenWord, t);
    if g.Some? then g
    else
      var o := FirstGen(OrdinalGen, t);
      if o.Some? then o
      else FirstGen(GToken, t)
  }

  /** The generation comes from the first pattern that matches anywhere, at its leftmost
      match; there is none exactly when no pattern matches. */
  lemma GenerationPreference(text: string)
    ensures var t := NormalizeForModels(text); var r := ExtractGeneration(text);
      (r.None? <==> NoMatch(GenWord, t) && NoMatch(OrdinalGen, t) && NoMatch(GToken, t))
      && (r.Some? ==>
            LeftmostGen(GenWord, t, r.value)
            || (NoMatch(GenWord, t) && LeftmostGen(OrdinalGen, t, r.value))
            || (NoMatch(GenWord, t) && NoMatch(OrdinalGen, t) && LeftmostGen(GToken, t, r.value)))
  {
    var t := NormalizeForModels(text);
    FirstGenLeftmost(GenWord, t);
    FirstGenLeftmost(OrdinalGen, t);
    FirstGenLeftmost(GToken, t);
  }

  // ---------------------------------------------------------------------
  // Token match and code containment
  // ---------------------------------------------------------------------

  /** The distinct query words that count: not stopwords and at least three characters long. */
  function QueryTokens(query: string): set<string> {
    var words := SplitWs(NormalizeText(query));
    set k | 0 <= k < |words| && words[k] !in Stopwords && |words[k]| >= 3 :: words[k]
  }

  /** The counted query words that occur in the normalised text. */
  function TokenHits(query: string, text: string): set<string> {
    Hits(QueryTokens(query), NormalizeText(text))
  }

  /** The words that occur in `t`. */
  function Hits(words: set<string>, t: string): set<string> {
    set w | w in words && Contains(t, w)
  }

  /** `_soft_token_match`: at least two distinct counted words of the query occur in the text. */
  predicate SoftTokenMatch(query: string, text: string) {
    |TokenHits(query, text)| >= 2
  }

  /** The soft match holds exactly when two different counted query words occur in the text. */
  lemma SoftMatchIff(query: string, text: string)
    ensures SoftTokenMatch(query, text) <==>
      exists a, b :: a in QueryTokens(query) && b in QueryTokens(query) && a != b
        && Contains(NormalizeText(text), a) && Contains(NormalizeText(text), b)
  {
    HitsIff(QueryTokens(query), NormalizeText(text));
  }

  lemma HitsIff(words: set<string>, t: string)
    ensures |Hits(words, t)| >= 2 <==>
      exists a, b :: a in words && b in words && a != b && Contains(t, a) && Contains(t, b)
  {
    var h := Hits(words, t);
    AtLeastTwo(h);
    assert forall w :: w in h <==> w in words && Contains(t, w);
  }

  /** A set has at least two elements exactly when it holds two different ones. */
  lemma AtLeastTwo<T>(h: set<T>)
    ensures |h| >= 2 <==> exists a, b :: a in h && b in h && a != b
  {
    if |h| >= 2 {
      var a :| a in h;
      assert |h - {a}| == |h| - 1;
      assert h - {a} != {};
      var b :| b in h - {a};
      assert a in h && b in h && a != b;
    }
    if exists a, b :: a in h && b in h && a != b {
      var a, b :| a in h && b in h && a != b;
      assert h == {a, b} + (h - {a, b});
      assert |{a, b}| == 2;
    }
  }

  predicate KeptInCompact(c: char) { !IsSpace(c) && c != '-' }

  predicate NotBlank(c: char) { c != ' ' }

  /** `re.sub(r"[\s\-]+", "", t)`. */
  function Compact(t: string): string { Filter(t, KeptInCompact) }

  /** `_contains_code`: the code occurs in the normalised text with spaces removed, or with
      all whitespace and hyphens removed. */
  predicate ContainsCode(text: string, code: string) {
    var t := NormalizeForModels(text);
    t != "" && (Contains(Filter(t, NotBlank), code) || Contains(Compact(t), code))
  }

  /** Removing spaces first changes nothing about what the compact form keeps. */
  lemma {:induction false} CompactAfterBlanks(s: string)
    ensures Filter(Filter(s, NotBlank), KeptInCompact) == Compact(s)
    decreases |s|
  {
    if |s| > 0 {
      CompactAfterBlanks(s[1..]);
    }
  }

  /** Dropping characters the substring does not use keeps it a substring. */
  lemma FilterKeepsContained(s: string, sub: string, keep: char -> bool)
    requires Contains(s, sub) && AllChars(sub, keep)
    ensures Contains(Filter(s, keep), sub)
  {
    var k := Find(s, sub);
    var a, b := s[..k], s[k + |sub|..];
    assert s == a + sub + b;
    FilterAppend(a + sub, b, keep);
    FilterAppend(a, sub, keep);
    FilterKeepsAll(sub, keep);
    var f := Filter(s, keep);
    var fa := Filter(a, keep);
    assert f == fa + sub + Filter(b, keep);
    assert f[|fa|..|fa| + |sub|] == sub;
    ContainsAt(f, sub, |fa|);
  }

  /** For a non-empty code without whitespace or hyphens, `_contains_code` holds exactly when the
      code occurs in the normalised text with whitespace and hyphens removed. */
  lemma ContainsCodeIff(text: string, code: string)
    requires |code| > 0 && AllChars(code, KeptInCompact)
    ensures ContainsCode(text, code) <==> Contains(Compact(NormalizeForModels(text)), code)
  {
    var t := NormalizeForModels(text);
    if Contains(Filter(t, NotBlank), code) {
      FilterKeepsContained(Filter(t, NotBlank), code, KeptInCompact);
      CompactAfterBlanks(t);
    }
    if Contains(Compact(t), code) {
      var k := Find(Compact(t), code);
      assert |Compact(t)| > 0;
    }
  }

  /** Model codes have neither whitespace nor hyphens. */
  lemma CodeCompact(code: string)
    requires CodeShape(code)
    ensures |code| > 0 && AllChars(code, KeptInCompact)
  {
    var n :| 2 <= n <= 4 && 1 + n <= |code| <= 3 + n && IsAsciiLower(code[0])
      && AllDigits(code[1..1 + n]) && forall k :: 1 + n <= k < |code| ==> IsAsciiLower(code[k]);
    forall k | 0 <= k < |code| ensures KeptInCompact(code[k]) {
      if 1 <= k < 1 + n {
        assert code[1..1 + n][k - 1] == code[k];
      }
    }
  }

  // ---------------------------------------------------------------------
  // The decision
  // ---------------------------------------------------------------------

  /** Why a listing was accepted or rejected; the code sets stand for the listed codes. */
  datatype Reason =
    | GenerationMismatch(queryGen: nat, itemGen: nat)
    | TokenMatch
    | WeakTokenMatch
    | MissingPrimary(code: string)
    | OtherInTitle(codes: set<string>)
    | NoisyDescription(codes: set<string>)
    | StrictTitle
    | OtherInDescription(codes: set<string>)
    | DescriptionOnly

  datatype RelevanceResult = RelevanceResult(ok: bool, reason: Reason)

  /** Python's `a or b` on two optional generations: 0 counts as absent on the left. */
  function ItemGeneration(title: string, description: string): Option<nat> {
    var tg := ExtractGeneration(title);
    if tg.Some? && tg.value != 0 then tg else ExtractGeneration(description)
  }

  /** The codes of a text other than the primary one. */
  function OtherCodes(text: string, primary: string): set<string> {
    set c | c in AllModelCodes(text) && c != primary
  }

  /** Both generations are known and they differ. */
  predicate GenClash(queryGen: Option<nat>, itemGen: Option<nat>) {
    queryGen.Some? && itemGen.Some? && itemGen.value != queryGen.value
  }

  /** What the decision looks at. The source computes the code facts only when the query has a
      primary code, and the token match only when it has none; computing them anyway changes
      nothing, since the decision below reads each only on its own path. */
  datatype Facts = Facts(
    queryGen: Option<nat>, itemGen: Option<nat>, primary: Option<string>, softMatch: bool,
    inTitle: bool, inDesc: bool, titleOther: set<string>, descOther: set<string>)

  function FactsOf(query: string, title: string, desc: string): Facts {
    var primary := ExtractPrimaryModelCode(query);
    var code := OrElse(primary, "");
    Facts(ExtractGeneration(query), ItemGeneration(title, desc), primary,
      SoftTokenMatch(query, Strip(title + " " + desc)),
      ContainsCode(title, code), ContainsCode(desc, code),
      OtherCodes(title, code), OtherCodes(desc, code))
  }

  /** The decision table of `is_relevant_for_query`. */
  function Decide(f: Facts): RelevanceResult {
    if GenClash(f.queryGen, f.itemGen) then
      RelevanceResult(false, GenerationMismatch(f.queryGen.value, f.itemGen.value))
    else if f.primary.None? then
      if f.softMatch then RelevanceResult(true, TokenMatch)
      else RelevanceResult(false, WeakTokenMatch)
    else if !f.inTitle && !f.inDesc then RelevanceResult(false, MissingPrimary(f.primary.value))
    else if f.inTitle then
      if f.titleOther != {} then RelevanceResult(false, OtherInTitle(f.titleOther))
      else if f.descOther != {} then RelevanceResult(true, NoisyDescription(f.descOther))
      else RelevanceResult(true, StrictTitle)
    else if f.descOther != {} then RelevanceResult(false, OtherInDescription(f.descOther))
    else RelevanceResult(true, DescriptionOnly)
  }

  /** `is_relevant_for_query`; a missing description counts as "". */
  function IsRelevantForQuery(query: string, title: string, description: Option<string>): RelevanceResult {
    Decide(FactsOf(query, title, OrElse(description, "")))
  }

  /** The table accepts exactly when the generations do not clash and either there is no primary
      code and the token match holds, or the code is in the title and the title has no other
      code, or it is only in the description and the description has no other code. */
  lemma DecideTable(f: Facts)
    ensures Decide(f).ok <==>
        !GenClash(f.queryGen, f.itemGen)
        && ((f.primary.None? && f.softMatch)
            || (f.primary.Some? && f.inTitle && f.titleOther == {})
            || (f.primary.Some? && !f.inTitle && f.inDesc && f.descOther == {}))
    ensures Decide(f).ok ==> Decide(f).reason in {TokenMatch, StrictTitle, DescriptionOnly}
                             || Decide(f).reason.NoisyDescription?
  {
  }

  /** Whether the generation check lets the listing through. */
  predicate GenerationAgrees(query: string, title: string, description: string) {
    !GenClash(ExtractGeneration(query), ItemGeneration(title, description))
  }

  /** A listing whose generation (title first, then description) differs from the query's is rejected. */
  lemma GenerationGate(query: string, title: string, description: Option<string>)
    requires !GenerationAgrees(query, title, OrElse(description, ""))
    ensures !IsRelevantForQuery(query, title, description).ok
  {
    DecideTable(FactsOf(query, title, OrElse(description, "")));
  }

  /** Without a model code in the query, a listing is accepted exactly when it passes the
      generation check and two different counted query words occur in its title and description. */
  lemma NoPrimaryDecision(query: string, title: string, description: Option<string>)
    requires ExtractPrimaryModelCode(query).None?
    ensures var desc := OrElse(description, ""); var t := NormalizeText(Strip(title + " " + desc));
      IsRelevantForQuery(query, title, description).ok <==>
        GenerationAgrees(query, title, desc)
        && exists a, b :: a in QueryTokens(query) && b in QueryTokens(query) && a != b
             && Contains(t, a) && Contains(t, b)
  {
    var desc := OrElse(description, "");
    DecideTable(FactsOf(query, title, desc));
    SoftMatchIff(query, Strip(title + " " + desc));
  }

  /** Where a code occurs, in the sense of `_contains_code`. */
  predicate CodeIn(text: string, code: string) {
    Contains(Compact(NormalizeForModels(text)), code)
  }

  /** With a model code in the query, a listing is accepted exactly when it passes the generation
      check and the code occurs (whitespace and hyphens ignored) in the title with no other code
      in the title, or occurs only in the description with no other code there. */
  lemma PrimaryDecision(query: string, title: string, description: Option<string>)
    requires ExtractPrimaryModelCode(query).Some?
    ensures var code := ExtractPrimaryModelCode(query).value;
      var desc := OrElse(description, "");
      IsRelevantForQuery(query, title, description).ok <==>
        GenerationAgrees(query, title, desc)
        && ((CodeIn(title, code) && OtherCodes(title, code) == {})
            || (!CodeIn(title, code) && CodeIn(desc, code) && OtherCodes(desc, code) == {}))
  {
    var code := ExtractPrimaryModelCode(query).value;
    var desc := OrElse(description, "");
    var f := FactsOf(query, title, desc);
    assert f.primary == Some(code);
    assert f.inTitle == ContainsCode(title, code) && f.inDesc == ContainsCode(desc, code);
    assert f.titleOther == OtherCodes(title, code) && f.descOther == OtherCodes(desc, code);
    assert GenerationAgrees(query, title, desc) == !GenClash(f.queryGen, f.itemGen);
    CodeCompact(code);
    ContainsCodeIff(title, code);
    ContainsCodeIff(desc, code);
    DecideTable(f);
    assert IsRelevantForQuery(query, title, description) == Decide(f);
  }
}
