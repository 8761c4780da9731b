/** The alias-based taxonomy classifier: text normalisation, tokenisation,
    the alias indexes built at load time and the scoring of one listing. */
module Classifier {
  import opened Text

  // ---------------------------------------------------------------------
  // Text normalisation
  // ---------------------------------------------------------------------

  /** The Cyrillic letters that look like Latin ones, mapped to the Latin letter. */
  function Confusable(c: char): char {
    match c
    case 'а' => 'a'
    case 'в' => 'b'
    case 'с' => 'c'
    case 'е' => 'e'
    case 'к' => 'k'
    case 'м' => 'm'
    case 'н' => 'h'
    case 'о' => 'o'
    case 'р' => 'p'
    case 'т' => 't'
    case 'у' => 'y'
    case 'х' => 'x'
    case _ => c
  }

  /** Lower-casing, then `ё` to `е`, then the look-alike table, on one character. */
  function FoldChar(c: char): char {
    var l := LowerChar(c);
    Confusable(if l == 'ё' then 'е' else l)
  }

  function FoldAll(s: string): (r: string)
    ensures |r| == |s| && forall i :: 0 <= i < |s| ==> r[i] == FoldChar(s[i])
  {
    seq(|s|, i requires 0 <= i < |s| => FoldChar(s[i]))
  }

  predicate IsLineBreak(c: char) { c == '\t' || c == '\r' || c == '\n' }

  predicate IsBar(c: char) { c == '|' || c == '/' || c == '\\' }

  predicate IsDash(c: char) { c == '-' || c == '_' }

  function TimesToX(s: string): (r: string)
    ensures |r| == |s| && forall i :: 0 <= i < |s| ==> r[i] == (if s[i] == '×' then 'x' else s[i])
  {
    seq(|s|, i requires 0 <= i < |s| => if s[i] == '×' then 'x' else s[i])
  }

  /** `_norm_text`: fold case and look-alikes, unify separators, collapse whitespace. */
  function NormText(s: string): string {
    var s1 := FoldAll(s);
    var s2 := SubRuns(s1, IsLineBreak, " ");
    var s3 := TimesToX(s2);
    var s4 := SubRuns(s3, IsBar, " ");
    var s5 := SubRuns(s4, IsDash, "-");
    Strip(SubRuns(s5, IsSpace, " "))
  }

  predicate FoldFixed(c: char) { FoldChar(c) == c }

  predicate Stage2Char(c: char) { FoldFixed(c) && !IsLineBreak(c) }

  predicate Stage3Char(c: char) { Stage2Char(c) && c != '×' }

  predicate Stage4Char(c: char) { Stage3Char(c) && !IsBar(c) }

  predicate Stage5Char(c: char) { Stage4Char(c) && c != '_' }

  /** A character that normalisation leaves as it is. */
  predicate NormalChar(c: char) { Stage5Char(c) && (IsSpace(c) ==> c == ' ') }

  predicate IsHyphen(c: char) { c == '-' }

  predicate IsBlank(c: char) { c == ' ' }

  /** The shape of normalised text. */
  predicate Normal(t: string) {
    AllChars(t, NormalChar) && NoTwo(t, IsHyphen) && NoTwo(t, IsBlank)
    && (|t| > 0 ==> t[0] != ' ' && t[|t| - 1] != ' ')
  }

  lemma FoldCharIdempotent(c: char)
    ensures FoldChar(FoldChar(c)) == FoldChar(c)
  {
  }

  lemma Stage1(s: string)
    ensures AllChars(FoldAll(s), FoldFixed)
  {
    forall i | 0 <= i < |s| ensures FoldFixed(FoldAll(s)[i]) {
      FoldCharIdempotent(s[i]);
    }
  }

  lemma Stage2(s1: string)
    requires AllChars(s1, FoldFixed)
    ensures AllChars(SubRuns(s1, IsLineBreak, " "), Stage2Char)
  {
    SubRunsChars(s1, IsLineBreak, ' ', Stage2Char);
  }

  lemma Stage3(s2: string)
    requires AllChars(s2, Stage2Char)
    ensures AllChars(TimesToX(s2), Stage3Char)
  {
    assert FoldChar('x') == 'x';
  }

  lemma Stage4(s3: string)
    requires AllChars(s3, Stage3Char)
    ensures AllChars(SubRuns(s3, IsBar, " "), Stage4Char)
  {
    SubRunsChars(s3, IsBar, ' ', Stage4Char);
  }

  lemma Stage5(s4: string)
    requires AllChars(s4, Stage4Char)
    ensures AllChars(SubRuns(s4, IsDash, "-"), Stage5Char)
    ensures NoTwo(SubRuns(s4, IsDash, "-"), IsHyphen)
  {
    SubRunsChars(s4, IsDash, '-', Stage5Char);
    SubRunsNoTwo(s4, IsDash, '-');
    var s5 := SubRuns(s4, IsDash, "-");
    assert forall i :: 0 <= i < |s5| && IsHyphen(s5[i]) ==> IsDash(s5[i]);
  }

  lemma Stage6(s5: string)
    requires AllChars(s5, Stage5Char) && NoTwo(s5, IsHyphen)
    ensures var s6 := SubRuns(s5, IsSpace, " ");
      AllChars(s6, NormalChar) && NoTwo(s6, IsHyphen) && NoTwo(s6, IsBlank)
  {
    SubRunsChars(s5, IsSpace, ' ', NormalChar);
    SubRunsNoTwo(s5, IsSpace, ' ');
    SubRunsKeepsNoTwo(s5, IsSpace, ' ', IsHyphen);
    var s6 := SubRuns(s5, IsSpace, " ");
    assert forall i :: 0 <= i < |s6| && IsBlank(s6[i]) ==> IsSpace(s6[i]);
  }

  lemma StripNormal(x: string)
    requires AllChars(x, NormalChar) && NoTwo(x, IsHyphen) && NoTwo(x, IsBlank)
    ensures Normal(Strip(x))
  {
    StripIsSlice(x);
    var lo := StripStart(x);
    var y := Strip(x);
    var hi := lo + |y|;
    assert y == x[lo..hi];
    SliceNormal(x, lo, hi);
    EndsNormal(y);
  }

  lemma EndsNormal(y: string)
    requires AllChars(y, NormalChar) && NoTwo(y, IsHyphen) && NoTwo(y, IsBlank)
    requires |y| > 0 ==> !IsSpace(y[0]) && !IsSpace(y[|y| - 1])
    ensures Normal(y)
  {
  }

  lemma SliceNormal(x: string, lo: nat, hi: nat)
    requires lo <= hi <= |x|
    requires AllChars(x, NormalChar) && NoTwo(x, IsHyphen) && NoTwo(x, IsBlank)
    ensures AllChars(x[lo..hi], NormalChar) && NoTwo(x[lo..hi], IsHyphen) && NoTwo(x[lo..hi], IsBlank)
  {
    AllCharsSlice(x, lo, hi, NormalChar);
    NoTwoSlice(x, lo, hi, IsHyphen);
    NoTwoSlice(x, lo, hi, IsBlank);
  }

  /** Every output of `NormText` has the normal shape. */
  lemma NormTextNormal(s: string)
    ensures Normal(NormText(s))
  {
    var s1 := FoldAll(s);
    Stage1(s);
    var s2 := SubRuns(s1, IsLineBreak, " ");
    Stage2(s1);
    var s3 := TimesToX(s2);
    Stage3(s2);
    var s4 := SubRuns(s3, IsBar, " ");
    Stage4(s3);
    var s5 := SubRuns(s4, IsDash, "-");
    Stage5(s4);
    Stage6(s5);
    StripNormal(SubRuns(s5, IsSpace, " "));
  }

  /** Normalisation leaves normal text as it is. */
  lemma NormalFixed(t: string)
    requires Normal(t)
    ensures NormText(t) == t
  {
    FoldsFixed(t);
    SeparatorsFixed(t);
    DashesFixed(t);
    SpacesFixed(t);
    StripFixed(t);
  }

  lemma FoldsFixed(t: string)
    requires Normal(t)
    ensures FoldAll(t) == t
  {
    assert forall i :: 0 <= i < |t| ==> NormalChar(t[i]);
  }

  lemma SeparatorsFixed(t: string)
    requires Normal(t)
    ensures SubRuns(t, IsLineBreak, " ") == t
    ensures TimesToX(t) == t
    ensures SubRuns(t, IsBar, " ") == t
  {
    assert forall i :: 0 <= i < |t| ==> NormalChar(t[i]);
    SubRunsNone(t, IsLineBreak, " ");
    SubRunsNone(t, IsBar, " ");
  }

  lemma DashesFixed(t: string)
    requires Normal(t)
    ensures SubRuns(t, IsDash, "-") == t
  {
    assert forall i :: 0 <= i < |t| ==> NormalChar(t[i]);
    assert forall i :: 0 <= i < |t| - 1 ==> !(IsDash(t[i]) && IsDash(t[i + 1]));
    SubRunsSingles(t, IsDash, '-');
  }

  lemma SpacesFixed(t: string)
    requires Normal(t)
    ensures SubRuns(t, IsSpace, " ") == t
  {
    assert forall i :: 0 <= i < |t| ==> NormalChar(t[i]);
    assert forall i :: 0 <= i < |t| - 1 ==> !(IsSpace(t[i]) && IsSpace(t[i + 1]));
    SubRunsSingles(t, IsSpace, ' ');
  }

  lemma StripFixed(t: string)
    requires Normal(t)
    ensures Strip(t) == t
  {
    if |t| > 0 {
      assert NormalChar(t[0]) && NormalChar(t[|t| - 1]);
    }
    StripLeftUnchanged(t);
    StripRightUnchanged(t);
  }

  /** `classify` normalises the text and `_tokenize` normalises it again: the second pass changes nothing. */
  lemma NormTextIdempotent(s: string)
    ensures NormText(NormText(s)) == NormText(s)
  {
    NormTextNormal(s);
    NormalFixed(NormText(s));
  }

  /** Two spellings that differ only in look-alike letters (or case) normalise to the same text. */
  lemma {:induction false} LookAlikesNormaliseAlike(a: string, b: string)
    requires |a| == |b| && forall i :: 0 <= i < |a| ==> FoldChar(a[i]) == FoldChar(b[i])
    ensures NormText(a) == NormText(b)
  {
    FoldAllAlike(a, b);
  }

  lemma FoldAllAlike(a: string, b: string)
    requires |a| == |b| && forall i :: 0 <= i < |a| ==> FoldChar(a[i]) == FoldChar(b[i])
    ensures FoldAll(a) == FoldAll(b)
  {
    var fa, fb := FoldAll(a), FoldAll(b);
    assert |fa| == |fb|;
    forall i | 0 <= i < |fa| ensures fa[i] == fb[i] { }
  }

  /** The look-alike table sends the Cyrillic spelling of the model letters to Latin, in either case. */
  lemma CyrillicModelLetters()
    ensures FoldChar('т') == 't' && FoldChar('Т') == 't' && FoldChar('Х') == 'x'
    ensures FoldChar('Ё') == 'e' && FoldChar('Е') == FoldChar('E')
  {
  }

  // ---------------------------------------------------------------------
  // Tokenisation
  // ---------------------------------------------------------------------

  /** The class `[a-zа-я0-9]`. */
  predicate IsTokenChar(c: char) { IsAsciiLower(c) || IsCyrLower(c) || IsDigit(c) }

  /** The class `[a-zа-я]`. */
  predicate IsTokenLetter(c: char) { IsAsciiLower(c) || IsCyrLower(c) }

  /** The match of `[a-zа-я0-9]+(?:-[a-zа-я0-9]+)?` at the start of `s`, which begins with a token character. */
  function WordAt(s: string): (w: string)
    requires |s| > 0 && IsTokenChar(s[0])
    ensures 0 < |w| <= |s| && w == s[..|w|]
  {
    var a := TakeRun(s, IsTokenChar);
    var rest := s[|a|..];
    if |rest| >= 2 && rest[0] == '-' && IsTokenChar(rest[1]) then
      var b := TakeRun(rest[1..], IsTokenChar);
      assert rest[1..][..|b|] == s[|a| + 1..|a| + 1 + |b|];
      a + "-" + b
    else a
  }

  /** `re.findall(r"[a-zа-я0-9]+(?:-[a-zа-я0-9]+)?", s)`. */
  function WordTokens(s: string): (ws: seq<string>)
    decreases |s|
    ensures forall j :: 0 <= j < |ws| ==> |ws[j]| > 0
  {
    if |s| == 0 then []
    else if !IsTokenChar(s[0]) then WordTokens(s[1..])
    else
      var w := WordAt(s);
      [w] + WordTokens(s[|w|..])
  }

  /** The match of `[a-zа-я]{1,5}\s*\d{2,5}[a-zа-я]{0,3}` starting exactly at the start of `s`. */
  function GluedAt(s: string): (r: Option<string>)
    ensures r.Some? ==> 0 < |r.value| <= |s| && r.value == s[..|r.value|] && IsTokenLetter(r.value[0])
  {
    var n := |TakeRun(s, IsTokenLetter)|;
    if n == 0 || n > 5 then None
    else
      var p := n + |TakeRun(s[n..], IsSpace)|;
      var d := |TakeRun(s[p..], IsDigit)|;
      if d < 2 then None
      else
        var e := p + (if d > 5 then 5 else d);
        var t := |TakeRun(s[e..], IsTokenLetter)|;
        Some(s[..e + (if t > 3 then 3 else t)])
  }

  /** `re.findall` of the glued-code pattern: leftmost matches, scanning on after each one. */
  function GluedMatches(s: string): (gs: seq<string>)
    decreases |s|
    ensures forall j :: 0 <= j < |gs| ==> |gs[j]| > 0 && IsTokenLetter(gs[j][0])
  {
    if |s| == 0 then []
    else
      match GluedAt(s)
      case Some(m) => [m] + GluedMatches(s[|m|..])
      case None => GluedMatches(s[1..])
  }

  /** The compact form: the text with its spaces removed. */
  function Compact(s: string): string {
    RemoveChar(s, ' ')
  }

  /** The non-empty parts of a token split at `-`. */
  function HyphenParts(t: string): set<string> {
    set p | p in SplitOn(t, '-') && p != ""
  }

  /** The glued matches with their spaces removed. */
  function GluedSet(gs: seq<string>): set<string> {
    if |gs| == 0 then {} else GluedSet(gs[..|gs| - 1]) + {RemoveChar(gs[|gs| - 1], ' ')}
  }

  function WordSet(s: string): set<string> {
    set w | w in WordTokens(s)
  }

  /** Tokens before the hyphen parts are added: words, the compact form, glued codes without spaces. */
  function BaseTokens(s: string): set<string> {
    WordSet(s)
    + (if Compact(s) != "" then {Compact(s)} else {})
    + GluedSet(GluedMatches(s))
  }

  /** The hyphen parts of every token of `base` that contains a hyphen. */
  function PartsOf(base: set<string>): set<string> {
    set t, p | t in base && Contains(t, "-") && p in SplitOn(t, '-') && p != "" :: p
  }

  /** The token set `_tokenize` returns for already normalised text. */
  function TokenSet(s: string): set<string> {
    BaseTokens(s) + PartsOf(BaseTokens(s))
  }

  /** `_tokenize`: normalises, collects the base tokens, then adds the parts of each hyphenated one. */
  method Tokenize(s0: string) returns (tokens: set<string>)
    ensures tokens == TokenSet(NormText(s0))
  {
    tokens := TokenizeNormal(NormText(s0));
  }

  /** The body of `_tokenize` after its normalisation step. */
  method TokenizeNormal(s: string) returns (tokens: set<string>)
    ensures tokens == TokenSet(s)
  {
    tokens := WordSet(s);
    var compact := RemoveChar(s, ' ');
    if compact != "" {
      tokens := tokens + {compact};
    }
    var glued := GluedMatches(s);
    ghost var lead := tokens;
    var i := 0;
    while i < |glued|
      invariant 0 <= i <= |glued|
      invariant tokens == lead + GluedSet(glued[..i])
    {
      tokens := tokens + {RemoveChar(glued[i], ' ')};
      assert glued[..i + 1][..i] == glued[..i];
      i := i + 1;
    }
    assert glued[..i] == glued;
    tokens := AddHyphenParts(tokens);
  }

  /** The last loop of `_tokenize`: over a snapshot of the tokens, adds the parts of each hyphenated one. */
  method AddHyphenParts(base: set<string>) returns (tokens: set<string>)
    ensures tokens == base + PartsOf(base)
  {
    tokens := base;
    var pending := base;
    assert base - pending == {};
    while pending != {}
      invariant pending <= base
      invariant tokens == base + PartsOf(base - pending)
      decreases |pending|
    {
      var tok :| tok in pending;
      if Contains(tok, "-") {
        tokens := tokens + HyphenParts(tok);
      }
      PartsOfStep(base, pending, tok);
      pending := pending - {tok};
    }
    assert base - pending == base;
  }

  lemma PartOfMember(base: set<string>, t: string, p: string)
    requires t in base && Contains(t, "-") && p in SplitOn(t, '-') && p != ""
    ensures p in PartsOf(base)
  {
  }

  /** Taking one more token out of the pending set adds exactly its hyphen parts. */
  lemma PartsOfStep(base: set<string>, pending: set<string>, tok: string)
    requires tok in pending && pending <= base
    ensures PartsOf(base - (pending - {tok}))
            == PartsOf(base - pending) + (if Contains(tok, "-") then HyphenParts(tok) else {})
  {
    var done := base - pending;
    var done' := base - (pending - {tok});
    assert done' == done + {tok};
    forall p | p in PartsOf(done')
      ensures p in PartsOf(done) + (if Contains(tok, "-") then HyphenParts(tok) else {})
    {
      var t :| t in done' && Contains(t, "-") && p in SplitOn(t, '-') && p != "";
      if t != tok {
        PartOfMember(done, t, p);
      }
    }
    forall p | p in PartsOf(done) + (if Contains(tok, "-") then HyphenParts(tok) else {})
      ensures p in PartsOf(done')
    {
      if p in PartsOf(done) {
        var t :| t in done && Contains(t, "-") && p in SplitOn(t, '-') && p != "";
        PartOfMember(done', t, p);
      } else {
        PartOfMember(done', tok, p);
      }
    }
  }

  /** Hyphen parts contain no hyphen. */
  lemma PartsHaveNoHyphen(base: set<string>, x: string)
    requires x in PartsOf(base)
    ensures !Contains(x, "-")
  {
    var t :| t in base && Contains(t, "-") && x in SplitOn(t, '-') && x != "";
    NotContainsChar(x, '-');
  }

  /** Every non-empty part of every hyphenated token is a token too. */
  lemma TokensClosedUnderHyphenParts(s: string, t: string, p: string)
    requires t in TokenSet(s) && Contains(t, "-")
    requires p in SplitOn(t, '-') && p != ""
    ensures p in TokenSet(s)
  {
    var base := BaseTokens(s);
    if t in PartsOf(base) {
      PartsHaveNoHyphen(base, t);
    } else {
      PartOfMember(base, t, p);
    }
  }

  lemma {:induction false} RemoveCharKeepsHead(g: string, c: char)
    requires |g| > 0 && g[0] != c
    ensures |RemoveChar(g, c)| > 0
  {
  }

  lemma {:induction false} GluedSetNonEmpty(gs: seq<string>, t: string)
    requires forall j :: 0 <= j < |gs| ==> |gs[j]| > 0 && IsTokenLetter(gs[j][0])
    requires t in GluedSet(gs)
    ensures t != ""
    decreases |gs|
  {
    var last := gs[|gs| - 1];
    if t == RemoveChar(last, ' ') {
      RemoveCharKeepsHead(last, ' ');
    } else {
      GluedSetNonEmpty(gs[..|gs| - 1], t);
    }
  }

  /** No token is empty. */
  lemma {:induction false} TokensNonEmpty(s: string, t: string)
    requires t in TokenSet(s)
    ensures t != ""
  {
    var base := BaseTokens(s);
    if t in GluedSet(GluedMatches(s)) {
      GluedSetNonEmpty(GluedMatches(s), t);
    } else if t in WordSet(s) {
      var j :| 0 <= j < |WordTokens(s)| && WordTokens(s)[j] == t;
    } else if t !in base {
      assert t in PartsOf(base);
      var t0 :| t0 in base && Contains(t0, "-") && t in SplitOn(t0, '-') && t != "";
    }
  }

  // ---------------------------------------------------------------------
  // Alias rows and the indexes built at load time
  // ---------------------------------------------------------------------

  /** One alias as the classifier holds it. */
  datatype AliasRow = AliasRow(brandId: Option<int>, familyId: Option<int>, variantId: Option<int>,
                               matchType: string, pattern: string, weight: int)

  /** One row of the alias table as it is read (the weight column may be NULL). */
  datatype DbAliasRow = DbAliasRow(brandId: Option<int>, familyId: Option<int>, variantId: Option<int>,
                                   matchType: string, pattern: string, weight: Option<int>)

  datatype FamilyRow = FamilyRow(id: int, brandId: int)

  datatype VariantRow = VariantRow(variantId: int, familyId: int, brandId: int)

  /** The row as loaded: pattern stripped and lower-cased, a missing weight read as 1. */
  function ToAlias(r: DbAliasRow): AliasRow {
    AliasRow(r.brandId, r.familyId, r.variantId, r.matchType, Lower(Strip(r.pattern)), OrElse(r.weight, 1))
  }

  function ToAliases(rows: seq<DbAliasRow>): (r: seq<AliasRow>)
    ensures |r| == |rows|
  {
    if |rows| == 0 then [] else ToAliases(rows[..|rows| - 1]) + [ToAlias(rows[|rows| - 1])]
  }

  /** Rows that are neither "regex" nor "phrase" are indexed as tokens. */
  predicate IsTokenAlias(a: AliasRow) { a.matchType != "regex" && a.matchType != "phrase" }

  /** `token_index.setdefault(pattern, []).append(alias)` over the aliases in order. */
  function TokenIndex(aliases: seq<AliasRow>): map<string, seq<AliasRow>> {
    if |aliases| == 0 then map[]
    else
      var m := TokenIndex(aliases[..|aliases| - 1]);
      var a := aliases[|aliases| - 1];
      if IsTokenAlias(a) then m[a.pattern := (if a.pattern in m then m[a.pattern] else []) + [a]] else m
  }

  function PhraseAliases(aliases: seq<AliasRow>): seq<AliasRow> {
    if |aliases| == 0 then []
    else
      var a := aliases[|aliases| - 1];
      PhraseAliases(aliases[..|aliases| - 1]) + (if a.matchType == "phrase" then [a] else [])
  }

  function RegexAliases(aliases: seq<AliasRow>, compiles: string -> bool): seq<AliasRow> {
    if |aliases| == 0 then []
    else
      var a := aliases[|aliases| - 1];
      RegexAliases(aliases[..|aliases| - 1], compiles) + (if a.matchType == "regex" && compiles(a.pattern) then [a] else [])
  }

  lemma IndexesSnoc(aliases: seq<AliasRow>, a: AliasRow, compiles: string -> bool)
    ensures var m := TokenIndex(aliases);
      TokenIndex(aliases + [a])
      == if IsTokenAlias(a) then m[a.pattern := (if a.pattern in m then m[a.pattern] else []) + [a]] else m
    ensures PhraseAliases(aliases + [a]) == PhraseAliases(aliases) + (if a.matchType == "phrase" then [a] else [])
    ensures RegexAliases(aliases + [a], compiles)
            == RegexAliases(aliases, compiles) + (if a.matchType == "regex" && compiles(a.pattern) then [a] else [])
  {
    assert (aliases + [a])[..|aliases|] == aliases;
  }

  /** The token aliases with pattern `k`, in row order. */
  function TokenAliasesFor(aliases: seq<AliasRow>, k: string): seq<AliasRow> {
    if |aliases| == 0 then []
    else (if IsTokenAlias(aliases[0]) && aliases[0].pattern == k then [aliases[0]] else []) + TokenAliasesFor(aliases[1..], k)
  }

  lemma {:induction false} TokenAliasesForAppend(aliases: seq<AliasRow>, a: AliasRow, k: string)
    ensures TokenAliasesFor(aliases + [a], k)
            == TokenAliasesFor(aliases, k) + (if IsTokenAlias(a) && a.pattern == k then [a] else [])
  {
    if |aliases| > 0 {
      assert (aliases + [a])[1..] == aliases[1..] + [a];
      TokenAliasesForAppend(aliases[1..], a, k);
    }
  }

  /** The token index maps each pattern to exactly the token aliases carrying it, in row order. */
  lemma {:induction false} TokenIndexCharacterised(aliases: seq<AliasRow>, k: string)
    ensures k in TokenIndex(aliases) <==> TokenAliasesFor(aliases, k) != []
    ensures k in TokenIndex(aliases) ==> TokenIndex(aliases)[k] == TokenAliasesFor(aliases, k)
  {
    if |aliases| > 0 {
      var init := aliases[..|aliases| - 1];
      var a := aliases[|aliases| - 1];
      assert init + [a] == aliases;
      TokenIndexCharacterised(init, k);
      TokenAliasesForAppend(init, a, k);
    }
  }

  /** A row goes to the phrase list exactly when its match type is "phrase". */
  lemma {:induction false} PhraseAliasesCharacterised(aliases: seq<AliasRow>, a: AliasRow)
    ensures a in PhraseAliases(aliases) <==> a in aliases && a.matchType == "phrase"
  {
    if |aliases| > 0 {
      var init := aliases[..|aliases| - 1];
      assert aliases == init + [aliases[|aliases| - 1]];
      PhraseAliasesCharacterised(init, a);
    }
  }

  /** A row goes to the regex list exactly when its match type is "regex" and its pattern compiles. */
  lemma {:induction false} RegexAliasesCharacterised(aliases: seq<AliasRow>, compiles: string -> bool, a: AliasRow)
    ensures a in RegexAliases(aliases, compiles) <==> a in aliases && a.matchType == "regex" && compiles(a.pattern)
  {
    if |aliases| > 0 {
      var init := aliases[..|aliases| - 1];
      assert aliases == init + [aliases[|aliases| - 1]];
      RegexAliasesCharacterised(init, compiles, a);
    }
  }

  /** `{id: brand_id for row in rows}`: a later row with the same id wins. */
  function FamilyMap(rows: seq<FamilyRow>): map<int, int> {
    if |rows| == 0 then map[] else FamilyMap(rows[..|rows| - 1])[rows[|rows| - 1].id := rows[|rows| - 1].brandId]
  }

  function VariantFamilyMap(rows: seq<VariantRow>): map<int, int> {
    if |rows| == 0 then map[] else VariantFamilyMap(rows[..|rows| - 1])[rows[|rows| - 1].variantId := rows[|rows| - 1].familyId]
  }

  function VariantBrandMap(rows: seq<VariantRow>): map<int, int> {
    if |rows| == 0 then map[] else VariantBrandMap(rows[..|rows| - 1])[rows[|rows| - 1].variantId := rows[|rows| - 1].brandId]
  }

  /** A mapping whose query failed stays empty. */
  function LoadedFamilyMap(rows: Option<seq<FamilyRow>>): map<int, int> {
    if rows.Some? then FamilyMap(rows.value) else map[]
  }

  function LoadedVariantFamilyMap(rows: Option<seq<VariantRow>>): map<int, int> {
    if rows.Some? then VariantFamilyMap(rows.value) else map[]
  }

  function LoadedVariantBrandMap(rows: Option<seq<VariantRow>>): map<int, int> {
    if rows.Some? then VariantBrandMap(rows.value) else map[]
  }

  /** The three indexes `load` builds from the alias rows. */
  datatype Indexes = Indexes(tokenIndex: map<string, seq<AliasRow>>, regexAliases: seq<AliasRow>,
                             phraseAliases: seq<AliasRow>)

  /** The three id mappings used to complete ancestry. */
  datatype Mappings = Mappings(familyToBrand: map<int, int>, variantToFamily: map<int, int>,
                               variantToBrand: map<int, int>)

  function IndexesOf(aliases: seq<AliasRow>, compiles: string -> bool): Indexes {
    Indexes(TokenIndex(aliases), RegexAliases(aliases, compiles), PhraseAliases(aliases))
  }

  function MappingsOf(familyRows: Option<seq<FamilyRow>>, variantRows: Option<seq<VariantRow>>): Mappings {
    Mappings(LoadedFamilyMap(familyRows), LoadedVariantFamilyMap(variantRows), LoadedVariantBrandMap(variantRows))
  }

  /** Every family id read is mapped, to the brand of the last row carrying it. */
  lemma {:induction false} FamilyMapCharacterised(rows: seq<FamilyRow>, i: nat)
    requires i < |rows|
    ensures rows[i].id in FamilyMap(rows)
    ensures (forall j :: i < j < |rows| ==> rows[j].id != rows[i].id) ==> FamilyMap(rows)[rows[i].id] == rows[i].brandId
  {
    if i < |rows| - 1 {
      FamilyMapCharacterised(rows[..|rows| - 1], i);
    }
  }

  // ---------------------------------------------------------------------
  // Scoring
  // ---------------------------------------------------------------------

  datatype HitKind = TokenHit | PhraseHit | RegexHit

  /** One debug hit: the alias that matched and how. */
  datatype Hit = Hit(why: HitKind, alias: AliasRow)

  datatype Level = BrandLevel | FamilyLevel | VariantLevel

  function LevelId(a: AliasRow, l: Level): Option<int> {
    match l
    case BrandLevel => a.brandId
    case FamilyLevel => a.familyId
    case VariantLevel => a.variantId
  }

  /** `add_score`: adds the weight under the key when there is one. */
  function AddScore(m: map<int, int>, key: Option<int>, w: int): map<int, int> {
    if key.Some? then m[key.value := (if key.value in m then m[key.value] else 0) + w] else m
  }

  /** The score table of one level after the hits, in order. */
  function Tally(hits: seq<Hit>, l: Level): map<int, int> {
    if |hits| == 0 then map[]
    else
      var a := hits[|hits| - 1].alias;
      AddScore(Tally(hits[..|hits| - 1], l), LevelId(a, l), a.weight)
  }

  /** The total weight of the hits that carry id `k` at level `l`. */
  function WeightSum(hits: seq<Hit>, l: Level, k: int): int {
    if |hits| == 0 then 0
    else (if LevelId(hits[0].alias, l) == Some(k) then hits[0].alias.weight else 0) + WeightSum(hits[1..], l, k)
  }

  predicate Carries(hits: seq<Hit>, l: Level, k: int) {
    exists i :: 0 <= i < |hits| && LevelId(hits[i].alias, l) == Some(k)
  }

  lemma {:induction false} WeightSumAppend(hits: seq<Hit>, h: Hit, l: Level, k: int)
    ensures WeightSum(hits + [h], l, k) == WeightSum(hits, l, k) + (if LevelId(h.alias, l) == Some(k) then h.alias.weight else 0)
  {
    if |hits| > 0 {
      assert (hits + [h])[1..] == hits[1..] + [h];
      WeightSumAppend(hits[1..], h, l, k);
    }
  }

  lemma {:induction false} WeightSumAbsent(hits: seq<Hit>, l: Level, k: int)
    requires !Carries(hits, l, k)
    ensures WeightSum(hits, l, k) == 0
  {
    if |hits| > 0 {
      assert LevelId(hits[0].alias, l) != Some(k);
      assert !Carries(hits[1..], l, k) by {
        forall i | 0 <= i < |hits| - 1 ensures LevelId(hits[1..][i].alias, l) != Some(k) {
          assert hits[1..][i] == hits[i + 1];
        }
      }
      WeightSumAbsent(hits[1..], l, k);
    }
  }

  /** Each hit adds its weight to the score of every id it carries: a table holds exactly the ids
      some hit carries, each with the total weight of those hits. */
  lemma {:induction false} TallyCharacterised(hits: seq<Hit>, l: Level, k: int)
    ensures k in Tally(hits, l) <==> Carries(hits, l, k)
    ensures k in Tally(hits, l) ==> Tally(hits, l)[k] == WeightSum(hits, l, k)
  {
    if |hits| > 0 {
      var init := hits[..|hits| - 1];
      var h := hits[|hits| - 1];
      assert init + [h] == hits;
      TallyCharacterised(init, l, k);
      WeightSumAppend(init, h, l, k);
      if Carries(hits, l, k) && !Carries(init, l, k) {
        var i :| 0 <= i < |hits| && LevelId(hits[i].alias, l) == Some(k);
        assert i == |hits| - 1;
      }
      if Carries(init, l, k) {
        var i :| 0 <= i < |init| && LevelId(init[i].alias, l) == Some(k);
        assert hits[i] == init[i];
      } else {
        WeightSumAbsent(init, l, k);
      }
    }
  }

  predicate NonNegativeWeights(hits: seq<Hit>) {
    forall i :: 0 <= i < |hits| ==> hits[i].alias.weight >= 0
  }

  /** With non-negative weights every score is non-negative. */
  lemma {:induction false} TallyNonNegative(hits: seq<Hit>, l: Level)
    requires NonNegativeWeights(hits)
    ensures forall k :: k in Tally(hits, l) ==> Tally(hits, l)[k] >= 0
  {
    if |hits| > 0 {
      TallyNonNegative(hits[..|hits| - 1], l);
    }
  }

  /** The three score tables together. */
  datatype Tables = Tables(brand: map<int, int>, family: map<int, int>, variant: map<int, int>)

  function TallyAll(hits: seq<Hit>): Tables {
    Tables(Tally(hits, BrandLevel), Tally(hits, FamilyLevel), Tally(hits, VariantLevel))
  }

  /** `add_hit` on the tables. */
  function AddHit(t: Tables, a: AliasRow): Tables {
    Tables(AddScore(t.brand, a.brandId, a.weight), AddScore(t.family, a.familyId, a.weight),
           AddScore(t.variant, a.variantId, a.weight))
  }

  lemma TallyAllSnoc(hits: seq<Hit>, h: Hit)
    ensures TallyAll(hits + [h]) == AddHit(TallyAll(hits), h.alias)
  {
    assert (hits + [h])[..|hits|] == hits;
  }

  /** The hits of a list of aliases that all matched the same way. */
  function HitsOf(aliases: seq<AliasRow>, why: HitKind): (r: seq<Hit>)
    ensures |r| == |aliases| && forall i :: 0 <= i < |aliases| ==> r[i] == Hit(why, aliases[i])
  {
    seq(|aliases|, i requires 0 <= i < |aliases| => Hit(why, aliases[i]))
  }

  function Lookup(index: map<string, seq<AliasRow>>, t: string): seq<AliasRow> {
    if t in index then index[t] else []
  }

  /** The token hits, visiting the tokens in the order given. */
  function TokenHitsOf(index: map<string, seq<AliasRow>>, order: seq<string>): seq<Hit> {
    if |order| == 0 then []
    else TokenHitsOf(index, order[..|order| - 1]) + HitsOf(Lookup(index, order[|order| - 1]), TokenHit)
  }

  /** The phrase hits: a non-empty pattern contained in the text. */
  function PhraseHitsOf(phrases: seq<AliasRow>, text: string): seq<Hit> {
    if |phrases| == 0 then []
    else
      var a := phrases[|phrases| - 1];
      PhraseHitsOf(phrases[..|phrases| - 1], text) + (if a.pattern != "" && Contains(text, a.pattern) then [Hit(PhraseHit, a)] else [])
  }

  /** The regex hits, for the regex search given as a relation between pattern and text. */
  function RegexHitsOf(regexes: seq<AliasRow>, text: string, search: (string, string) -> bool): seq<Hit> {
    if |regexes| == 0 then []
    else
      var a := regexes[|regexes| - 1];
      RegexHitsOf(regexes[..|regexes| - 1], text, search) + (if search(a.pattern, text) then [Hit(RegexHit, a)] else [])
  }

  /** `order` lists every element of `s` exactly once. */
  predicate IsEnumeration(order: seq<string>, s: set<string>) {
    (forall i :: 0 <= i < |order| ==> order[i] in s)
    && (forall x :: x in s ==> x in order)
    && (forall i, j :: 0 <= i < j < |order| ==> order[i] != order[j])
  }

  /** `k` has a maximal score in `m`. */
  predicate IsArgMax(m: map<int, int>, k: int) {
    k in m && forall j :: j in m ==> m[j] <= m[k]
  }

  lemma SomeKey(ks: set<int>)
    requires |ks| > 0
    ensures exists x :: x in ks
  {
    if forall x :: x !in ks {
      assert false;
    }
  }

  lemma {:induction false} MaxKeyExists(m: map<int, int>, ks: set<int>)
    requires |ks| > 0 && ks <= m.Keys
    ensures exists k :: k in ks && forall j :: j in ks ==> m[j] <= m[k]
    decreases |ks|
  {
    SomeKey(ks);
    var k0 :| k0 in ks;
    var rest := ks - {k0};
    if |rest| == 0 {
      forall j | j in ks ensures j == k0 {
      }
    } else {
      MaxKeyExists(m, rest);
      var k1 :| k1 in rest && forall j :: j in rest ==> m[j] <= m[k1];
      if m[k0] <= m[k1] {
        assert forall j :: j in ks ==> m[j] <= m[k1];
      } else {
        assert forall j :: j in ks ==> m[j] <= m[k0];
      }
    }
  }

  /** `max(table, key=table.get)`: a key with maximal score (which one among ties is left open). */
  method ArgMax(m: map<int, int>) returns (k: int)
    requires |m.Keys| > 0
    ensures IsArgMax(m, k)
  {
    MaxKeyExists(m, m.Keys);
    k :| k in m.Keys && forall j :: j in m.Keys ==> m[j] <= m[k];
  }

  /** `top` is the `n` best entries of `m`, best first. */
  predicate IsTop(top: seq<(int, int)>, m: map<int, int>, n: nat) {
    |top| == (if |m| < n then |m| else n)
    && (forall i :: 0 <= i < |top| ==> top[i].0 in m && top[i].1 == m[top[i].0])
    && (forall i, j :: 0 <= i < j < |top| ==> top[i].0 != top[j].0 && top[i].1 >= top[j].1)
    && (forall k :: k in m && (forall i :: 0 <= i < |top| ==> top[i].0 != k) ==> forall i :: 0 <= i < |top| ==> m[k] <= top[i].1)
  }

  /** `dict(sorted(table.items(), key=score, reverse=True)[:n])`: the `n` best entries. */
  method TopEntries(m: map<int, int>, n: nat) returns (top: seq<(int, int)>)
    ensures IsTop(top, m, n)
  {
    top := [];
    var rest := m.Keys;
    SelectingStart(m);
    while |top| < n && |rest| > 0
      invariant |top| <= n
      invariant Selecting(top, rest, m)
      decreases |rest|
    {
      SelectingSubset(top, rest, m);
      MaxKeyExists(m, rest);
      var k :| k in rest && forall j :: j in rest ==> m[j] <= m[k];
      SelectStep(top, rest, m, k);
      top := top + [(k, m[k])];
      rest := rest - {k};
    }
    SelectingDone(top, rest, m, n);
  }

  /** The selection loop's state: `top` holds the best entries so far, `rest` the keys not yet taken. */
  ghost predicate Selecting(top: seq<(int, int)>, rest: set<int>, m: map<int, int>) {
    |top| + |rest| == |m|
    && (forall k :: k in rest <==> k in m && forall i :: 0 <= i < |top| ==> top[i].0 != k)
    && (forall i :: 0 <= i < |top| ==> top[i].0 in m && top[i].1 == m[top[i].0])
    && (forall i, j :: 0 <= i < j < |top| ==> top[i].0 != top[j].0 && top[i].1 >= top[j].1)
    && (forall k :: k in rest ==> forall i :: 0 <= i < |top| ==> m[k] <= top[i].1)
  }

  lemma SelectingStart(m: map<int, int>)
    ensures Selecting([], m.Keys, m)
  {
  }

  lemma SelectingSubset(top: seq<(int, int)>, rest: set<int>, m: map<int, int>)
    requires Selecting(top, rest, m)
    ensures rest <= m.Keys
  {
    forall k | k in rest ensures k in m.Keys { }
  }

  /** Taking a best remaining key keeps the selection state. */
  lemma SelectStep(top: seq<(int, int)>, rest: set<int>, m: map<int, int>, k: int)
    requires Selecting(top, rest, m)
    requires k in rest && forall j :: j in rest ==> m[j] <= m[k]
    ensures k in m
    ensures Selecting(top + [(k, m[k])], rest - {k}, m)
  {
    var top' := top + [(k, m[k])];
    assert forall i :: 0 <= i < |top| ==> top'[i] == top[i];
    assert top'[|top|].0 == k;
  }

  /** Once `n` entries are taken, or every key is, the selection is the top `n`. */
  lemma SelectingDone(top: seq<(int, int)>, rest: set<int>, m: map<int, int>, n: nat)
    requires Selecting(top, rest, m)
    requires |top| <= n && !(|top| < n && |rest| > 0)
    ensures IsTop(top, m, n)
  {
  }

  // ---------------------------------------------------------------------
  // The classifier
  // ---------------------------------------------------------------------

  datatype Scope = NoScope | BrandScope | FamilyScope | VariantScope

  /** The ancestry links completed from the mappings (each set only when it changed the id). */
  datatype Inferred = Inferred(familyFromVariant: Option<int>, brandFromVariant: Option<int>, brandFromFamily: Option<int>)

  /** The result of `classify`: ids, confidence and the debug block. */
  datatype Classification = Classification(
    brandId: Option<int>, familyId: Option<int>, variantId: Option<int>, confidence: int,
    hits: seq<Hit>, scope: Scope, inferred: Inferred,
    brandTop: seq<(int, int)>, familyTop: seq<(int, int)>, variantTop: seq<(int, int)>)

  /** The result returned when no alias hit carries an id. */
  const NoMatch := Classification(None, None, None, 0, [], NoScope, Inferred(None, None, None), [], [], [])

  /** `table.get(key, 0)`, or 0 when there is no key. */
  function ScoreOf(m: map<int, int>, key: Option<int>): int {
    if key.Some? && key.value in m then m[key.value] else 0
  }

  function Max(a: int, b: int): int { if a >= b then a else b }

  function Min(a: int, b: int): int { if a <= b then a else b }

  /** The score of the most specific level found. */
  function BestScore(t: Tables, brand: Option<int>, family: Option<int>, variant: Option<int>): int {
    var b := ScoreOf(t.brand, brand);
    var f := if family.Some? then Max(b, ScoreOf(t.family, family)) else b;
    if variant.Some? then Max(f, ScoreOf(t.variant, variant)) else f
  }

  function Bonus(scope: Scope): int {
    match scope
    case VariantScope => 10
    case FamilyScope => 5
    case _ => 0
  }

  /** The text `classify` matches against: title and description joined by a space, normalised. */
  function ClassifyText(title: string, description: Option<string>): string {
    NormText(title + " " + OrElse(description, ""))
  }

  class ModelClassifier {
    var aliases: seq<AliasRow>
    var indexes: Indexes
    var mappings: Mappings

    constructor()
      ensures aliases == [] && indexes == Indexes(map[], [], []) && mappings == Mappings(map[], map[], map[])
    {
      aliases := [];
      indexes := Indexes(map[], [], []);
      mappings := Mappings(map[], map[], map[]);
    }

    /** `load` after the database reads: `compiles` says which regex patterns compile; a mapping
        query that failed is `None` and leaves its mapping empty. */
    method Load(rows: seq<DbAliasRow>, compiles: string -> bool,
                familyRows: Option<seq<FamilyRow>>, variantRows: Option<seq<VariantRow>>)
      modifies this
      ensures aliases == ToAliases(rows)
      ensures indexes == IndexesOf(aliases, compiles)
      ensures mappings == MappingsOf(familyRows, variantRows)
    {
      var loaded, index, phrases, regexes := BuildIndexes(rows, compiles);
      aliases := loaded;
      indexes := Indexes(index, regexes, phrases);
      mappings := MappingsOf(familyRows, variantRows);
    }

    /** `classify`: scores the normalised title and description against the loaded aliases. The
        token set is visited in an order left open (`order`); `search` stands for the regex engine. */
    method Classify(title: string, description: Option<string>, search: (string, string) -> bool)
        returns (r: Classification, ghost hits: seq<Hit>, ghost order: seq<string>)
      ensures var text := ClassifyText(title, description);
        IsEnumeration(order, TokenSet(text))
        && hits == TokenHitsOf(indexes.tokenIndex, order) + PhraseHitsOf(indexes.phraseAliases, text)
                   + RegexHitsOf(indexes.regexAliases, text, search)
      ensures IsClassification(r, hits, mappings)
    {
      var text := NormText(title + " " + OrElse(description, ""));
      var found, tables;
      found, tables, order := CollectHits(text, search);
      NormTextIdempotent(title + " " + OrElse(description, ""));
      hits := found;
      r := Decide(found, tables, mappings);
    }

    /** The three hit loops of `classify`: tokens (in some order of the token set), then phrases, then
        regexes, summing weights into the tables as they go. */
    method CollectHits(text: string, search: (string, string) -> bool)
        returns (hits: seq<Hit>, tables: Tables, ghost order: seq<string>)
      ensures IsEnumeration(order, TokenSet(NormText(text)))
      ensures hits == TokenHitsOf(indexes.tokenIndex, order) + PhraseHitsOf(indexes.phraseAliases, text)
                      + RegexHitsOf(indexes.regexAliases, text, search)
      ensures tables == TallyAll(hits)
    {
      var tokens := Tokenize(text);
      hits, tables, order := AddTokenHits(indexes.tokenIndex, tokens);
      hits, tables := AddPhraseHits(indexes.phraseAliases, text, hits, tables);
      hits, tables := AddRegexHits(indexes.regexAliases, text, search, hits, tables);
    }
  }

  /** The token loop of `classify`: every token, in some order, looked up in the index. */
  method AddTokenHits(index: map<string, seq<AliasRow>>, tokens: set<string>)
      returns (hits: seq<Hit>, tables: Tables, ghost order: seq<string>)
    ensures IsEnumeration(order, tokens)
    ensures hits == TokenHitsOf(index, order)
    ensures tables == TallyAll(hits)
  {
    hits := [];
    tables := Tables(map[], map[], map[]);
    order := [];
    var remaining := tokens;
    while remaining != {}
      invariant remaining <= tokens
      invariant forall i :: 0 <= i < |order| ==> order[i] in tokens && order[i] !in remaining
      invariant forall x :: x in tokens ==> x in remaining || x in order
      invariant forall i, j :: 0 <= i < j < |order| ==> order[i] != order[j]
      invariant hits == TokenHitsOf(index, order)
      invariant tables == TallyAll(hits)
      decreases |remaining|
    {
      var t :| t in remaining;
      hits, tables := AddFoundHits(Lookup(index, t), hits, tables);
      TokenHitsSnoc(index, order, t);
      order := order + [t];
      remaining := remaining - {t};
    }
  }

  lemma TokenHitsSnoc(index: map<string, seq<AliasRow>>, order: seq<string>, t: string)
    ensures TokenHitsOf(index, order + [t]) == TokenHitsOf(index, order) + HitsOf(Lookup(index, t), TokenHit)
  {
    assert (order + [t])[..|order|] == order;
  }

  /** The aliases one token finds, each added as a token hit. */
  method AddFoundHits(found: seq<AliasRow>, hits0: seq<Hit>, tables0: Tables) returns (hits: seq<Hit>, tables: Tables)
    requires tables0 == TallyAll(hits0)
    ensures hits == hits0 + HitsOf(found, TokenHit)
    ensures tables == TallyAll(hits)
  {
    hits, tables := hits0, tables0;
    var j := 0;
    while j < |found|
      invariant 0 <= j <= |found|
      invariant hits == hits0 + HitsOf(found[..j], TokenHit)
      invariant tables == TallyAll(hits)
    {
      TallyAllSnoc(hits, Hit(TokenHit, found[j]));
      assert HitsOf(found[..j + 1], TokenHit) == HitsOf(found[..j], TokenHit) + [Hit(TokenHit, found[j])];
      tables := AddHit(tables, found[j]);
      hits := hits + [Hit(TokenHit, found[j])];
      j := j + 1;
    }
    assert found[..j] == found;
  }

  /** The phrase loop of `classify`: a non-empty pattern that occurs in the text is a hit. */
  method AddPhraseHits(phrases: seq<AliasRow>, text: string, hits0: seq<Hit>, tables0: Tables)
      returns (hits: seq<Hit>, tables: Tables)
    requires tables0 == TallyAll(hits0)
    ensures hits == hits0 + PhraseHitsOf(phrases, text)
    ensures tables == TallyAll(hits)
  {
    hits, tables := hits0, tables0;
    var j := 0;
    while j < |phrases|
      invariant 0 <= j <= |phrases|
      invariant hits == hits0 + PhraseHitsOf(phrases[..j], text)
      invariant tables == TallyAll(hits)
    {
      var a := phrases[j];
      assert phrases[..j + 1][..j] == phrases[..j];
      if a.pattern != "" && Contains(text, a.pattern) {
        TallyAllSnoc(hits, Hit(PhraseHit, a));
        tables := AddHit(tables, a);
        hits := hits + [Hit(PhraseHit, a)];
      }
      j := j + 1;
    }
    assert phrases[..j] == phrases;
  }

  /** The regex loop of `classify`: a pattern the search finds in the text is a hit. */
  method AddRegexHits(regexes: seq<AliasRow>, text: string, search: (string, string) -> bool,
                      hits0: seq<Hit>, tables0: Tables)
      returns (hits: seq<Hit>, tables: Tables)
    requires tables0 == TallyAll(hits0)
    ensures hits == hits0 + RegexHitsOf(regexes, text, search)
    ensures tables == TallyAll(hits)
  {
    hits, tables := hits0, tables0;
    var j := 0;
    while j < |regexes|
      invariant 0 <= j <= |regexes|
      invariant hits == hits0 + RegexHitsOf(regexes[..j], text, search)
      invariant tables == TallyAll(hits)
    {
      var a := regexes[j];
      assert regexes[..j + 1][..j] == regexes[..j];
      if search(a.pattern, text) {
        TallyAllSnoc(hits, Hit(RegexHit, a));
        tables := AddHit(tables, a);
        hits := hits + [Hit(RegexHit, a)];
      }
      j := j + 1;
    }
    assert regexes[..j] == regexes;
  }

  /** The row loop of `load`: every row converted, then sorted into the regex list (if it compiles),
      the phrase list or the token index. */
  method BuildIndexes(rows: seq<DbAliasRow>, compiles: string -> bool)
      returns (loaded: seq<AliasRow>, index: map<string, seq<AliasRow>>, phrases: seq<AliasRow>, regexes: seq<AliasRow>)
    ensures loaded == ToAliases(rows)
    ensures index == TokenIndex(loaded)
    ensures phrases == PhraseAliases(loaded)
    ensures regexes == RegexAliases(loaded, compiles)
  {
    loaded := [];
    index := map[];
    regexes := [];
    phrases := [];
    var i := 0;
    while i < |rows|
      invariant 0 <= i <= |rows|
      invariant loaded == ToAliases(rows[..i])
      invariant index == TokenIndex(loaded)
      invariant phrases == PhraseAliases(loaded)
      invariant regexes == RegexAliases(loaded, compiles)
    {
      var ar := ToAlias(rows[i]);
      ToAliasesSnoc(rows, i);
      index, phrases, regexes := FileAlias(ar, loaded, index, phrases, regexes, compiles);
      loaded := loaded + [ar];
      i := i + 1;
    }
    assert rows[..i] == rows;
  }

  lemma ToAliasesSnoc(rows: seq<DbAliasRow>, i: nat)
    requires i < |rows|
    ensures ToAliases(rows[..i + 1]) == ToAliases(rows[..i]) + [ToAlias(rows[i])]
  {
    assert rows[..i + 1][..i] == rows[..i];
  }

  /** One row of the `load` loop: the alias goes to the regex list (if it compiles), the phrase
      list or the token index. */
  method FileAlias(ar: AliasRow, loaded: seq<AliasRow>, index0: map<string, seq<AliasRow>>,
                   phrases0: seq<AliasRow>, regexes0: seq<AliasRow>, compiles: string -> bool)
      returns (index: map<string, seq<AliasRow>>, phrases: seq<AliasRow>, regexes: seq<AliasRow>)
    requires index0 == TokenIndex(loaded)
    requires phrases0 == PhraseAliases(loaded)
    requires regexes0 == RegexAliases(loaded, compiles)
    ensures index == TokenIndex(loaded + [ar])
    ensures phrases == PhraseAliases(loaded + [ar])
    ensures regexes == RegexAliases(loaded + [ar], compiles)
  {
    IndexesSnoc(loaded, ar, compiles);
    index, phrases, regexes := index0, phrases0, regexes0;
    if ar.matchType == "regex" {
      if compiles(ar.pattern) {
        regexes := regexes + [ar];
      }
    } else if ar.matchType == "phrase" {
      phrases := phrases + [ar];
    } else {
      index := index[ar.pattern := (if ar.pattern in index then index[ar.pattern] else []) + [ar]];
    }
  }

  /** The table is empty and nothing is picked, or the pick has a maximal score. */
  predicate PickedFrom(m: map<int, int>, id: Option<int>) {
    if |m.Keys| == 0 then id.None? else id.Some? && IsArgMax(m, id.value)
  }

  predicate NoneFound(t: Tables) {
    |t.brand.Keys| == 0 && |t.family.Keys| == 0 && |t.variant.Keys| == 0
  }

  /** `max(table, key=table.get)` when the table is non-empty, else no id. */
  method Pick(m: map<int, int>) returns (id: Option<int>)
    ensures PickedFrom(m, id)
  {
    id := None;
    if |m.Keys| > 0 {
      var k := ArgMax(m);
      id := Some(k);
    }
  }

  /** The ancestry rules: a mapped variant fixes the family, then the brand comes from the
      family when it is mapped, else from the variant when it is mapped, else from the brand table. */
  predicate IsAncestry(maps: Mappings, variantId: Option<int>, pickedFamily: Option<int>, pickedBrand: Option<int>,
                       familyId: Option<int>, brandId: Option<int>, inferred: Inferred) {
    var fromVariant := variantId.Some? && variantId.value in maps.variantToFamily;
    var viaFamily := familyId.Some? && familyId.value in maps.familyToBrand;
    var viaVariant := variantId.Some? && variantId.value in maps.variantToBrand;
    familyId == (if fromVariant then Some(maps.variantToFamily[variantId.value]) else pickedFamily)
    && brandId == (if viaFamily then Some(maps.familyToBrand[familyId.value])
                   else if viaVariant then Some(maps.variantToBrand[variantId.value])
                   else pickedBrand)
    // an inference is recorded exactly where it changed the id set before it, and holds the
    // id it set; `afterVariant` is the brand once the variant step has run
    && (var afterVariant := if viaVariant then Some(maps.variantToBrand[variantId.value]) else pickedBrand;
        inferred.familyFromVariant == (if fromVariant && familyId != pickedFamily then familyId else None)
        && inferred.brandFromVariant == (if viaVariant && afterVariant != pickedBrand then afterVariant else None)
        && inferred.brandFromFamily == (if viaFamily && brandId != afterVariant then brandId else None))
  }

  method Ancestry(maps: Mappings, variantId: Option<int>, pickedFamily: Option<int>, pickedBrand: Option<int>)
      returns (familyId: Option<int>, brandId: Option<int>, inferred: Inferred)
    ensures IsAncestry(maps, variantId, pickedFamily, pickedBrand, familyId, brandId, inferred)
  {
    familyId, brandId := pickedFamily, pickedBrand;
    inferred := Inferred(None, None, None);
    if variantId.Some? && variantId.value in maps.variantToFamily {
      var fam := maps.variantToFamily[variantId.value];
      if familyId.None? || familyId.value != fam {
        familyId := Some(fam);
        inferred := inferred.(familyFromVariant := Some(fam));
      }
    }
    if variantId.Some? && variantId.value in maps.variantToBrand {
      var b := maps.variantToBrand[variantId.value];
      if brandId.None? || brandId.value != b {
        brandId := Some(b);
        inferred := inferred.(brandFromVariant := Some(b));
      }
    }
    if familyId.Some? && familyId.value in maps.familyToBrand {
      var b := maps.familyToBrand[familyId.value];
      if brandId.None? || brandId.value != b {
        brandId := Some(b);
        inferred := inferred.(brandFromFamily := Some(b));
      }
    }
  }

  function ScopeOf(brandId: Option<int>, familyId: Option<int>, variantId: Option<int>): (s: Scope)
    ensures s == NoScope <==> brandId.None? && familyId.None? && variantId.None?
  {
    if variantId.Some? then VariantScope
    else if familyId.Some? then FamilyScope
    else if brandId.Some? then BrandScope
    else NoScope
  }

  /** What `classify` promises about its result for the hits it found. */
  ghost predicate IsClassification(r: Classification, hits: seq<Hit>, maps: Mappings) {
    var t := TallyAll(hits);
    if NoneFound(t) then r == NoMatch
    else
      exists pickedFamily, pickedBrand ::
        PickedFrom(t.variant, r.variantId) && PickedFrom(t.family, pickedFamily) && PickedFrom(t.brand, pickedBrand)
        && IsAncestry(maps, r.variantId, pickedFamily, pickedBrand, r.familyId, r.brandId, r.inferred)
        // the most specific level found decides scope and confidence
        && r.scope == ScopeOf(r.brandId, r.familyId, r.variantId)
        && r.confidence == Min(100, BestScore(t, r.brandId, r.familyId, r.variantId) * 5 + Bonus(r.scope))
        // the debug block: the first 40 hits and the five best entries of each table
        && r.hits == hits[..Min(40, |hits|)]
        && IsTop(r.brandTop, t.brand, 5) && IsTop(r.familyTop, t.family, 5) && IsTop(r.variantTop, t.variant, 5)
  }

  /** The part of `classify` after the hit loops: argmax per table, ancestry, scope, confidence. */
  method Decide(hits: seq<Hit>, tables: Tables, maps: Mappings) returns (r: Classification)
    requires tables == TallyAll(hits)
    ensures IsClassification(r, hits, maps)
  {
    if NoneFound(tables) {
      return NoMatch;
    }
    var variantId := Pick(tables.variant);
    var pickedFamily := Pick(tables.family);
    var pickedBrand := Pick(tables.brand);
    var familyId, brandId, inferred := Ancestry(maps, variantId, pickedFamily, pickedBrand);
    var scope := BrandScope;
    var best := ScoreOf(tables.brand, brandId);
    if familyId.Some? {
      scope := FamilyScope;
      best := Max(best, ScoreOf(tables.family, familyId));
    }
    if variantId.Some? {
      scope := VariantScope;
      best := Max(best, ScoreOf(tables.variant, variantId));
    }
    var confidence := Min(100, best * 5 + (if scope == VariantScope then 10 else if scope == FamilyScope then 5 else 0));
    var brandTop := TopEntries(tables.brand, 5);
    var familyTop := TopEntries(tables.family, 5);
    var variantTop := TopEntries(tables.variant, 5);
    r := Classification(brandId, familyId, variantId, confidence, hits[..Min(40, |hits|)], scope, inferred,
                        brandTop, familyTop, variantTop);
    assert PickedFrom(tables.family, pickedFamily) && PickedFrom(tables.brand, pickedBrand);
  }

  /** Confidence lies in [0, 100] once every alias weight is non-negative. */
  lemma ConfidenceBounds(r: Classification, hits: seq<Hit>, maps: Mappings)
    requires IsClassification(r, hits, maps)
    requires NonNegativeWeights(hits)
    ensures 0 <= r.confidence <= 100
  {
    TallyNonNegative(hits, BrandLevel);
    TallyNonNegative(hits, FamilyLevel);
    TallyNonNegative(hits, VariantLevel);
  }

  /** No hit carries a brand, family or variant id. */
  predicate NoIds(hits: seq<Hit>) {
    forall i :: 0 <= i < |hits| ==>
      hits[i].alias.brandId.None? && hits[i].alias.familyId.None? && hits[i].alias.variantId.None?
  }

  /** `not any(tables)` holds exactly when no hit carries an id. */
  lemma NoneFoundIff(hits: seq<Hit>)
    ensures NoneFound(TallyAll(hits)) <==> NoIds(hits)
  {
    if exists i :: 0 <= i < |hits| && hits[i].alias.brandId.Some? {
      var i :| 0 <= i < |hits| && hits[i].alias.brandId.Some?;
      var k := hits[i].alias.brandId.value;
      TallyCharacterised(hits, BrandLevel, k);
      assert k in Tally(hits, BrandLevel).Keys;
    } else if exists i :: 0 <= i < |hits| && hits[i].alias.familyId.Some? {
      var i :| 0 <= i < |hits| && hits[i].alias.familyId.Some?;
      var k := hits[i].alias.familyId.value;
      TallyCharacterised(hits, FamilyLevel, k);
      assert k in Tally(hits, FamilyLevel).Keys;
    } else if exists i :: 0 <= i < |hits| && hits[i].alias.variantId.Some? {
      var i :| 0 <= i < |hits| && hits[i].alias.variantId.Some?;
      var k := hits[i].alias.variantId.value;
      TallyCharacterised(hits, VariantLevel, k);
      assert k in Tally(hits, VariantLevel).Keys;
    } else {
      EmptyTally(hits, BrandLevel);
      EmptyTally(hits, FamilyLevel);
      EmptyTally(hits, VariantLevel);
    }
  }

  /** The scope is "none" (the early `return best`) exactly when no hit carries an id; a brand
      scope always comes with a brand id, although the code sets that scope unconditionally. */
  lemma ScopeMatchesIds(r: Classification, hits: seq<Hit>, maps: Mappings)
    requires IsClassification(r, hits, maps)
    ensures r.scope == NoScope <==> NoIds(hits)
    ensures r.scope == BrandScope ==> r.brandId.Some? && r.familyId.None? && r.variantId.None?
    ensures r.scope == NoScope ==> r.brandId.None? && r.familyId.None? && r.variantId.None? && r.confidence == 0
  {
    NoneFoundIff(hits);
    var t := TallyAll(hits);
    if !NoneFound(t) {
      var pickedFamily, pickedBrand :|
        PickedFrom(t.variant, r.variantId) && PickedFrom(t.family, pickedFamily) && PickedFrom(t.brand, pickedBrand)
        && IsAncestry(maps, r.variantId, pickedFamily, pickedBrand, r.familyId, r.brandId, r.inferred)
        && r.scope == ScopeOf(r.brandId, r.familyId, r.variantId);
      assert r.variantId.None? && r.familyId.None? ==> pickedBrand.Some? && r.brandId == pickedBrand;
    }
  }

  lemma {:induction false} EmptyTally(hits: seq<Hit>, l: Level)
    requires forall i :: 0 <= i < |hits| ==> LevelId(hits[i].alias, l).None?
    ensures Tally(hits, l) == map[]
  {
    if |hits| > 0 {
      EmptyTally(hits[..|hits| - 1], l);
    }
  }
}
