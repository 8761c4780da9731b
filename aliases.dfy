/** The alias dictionary the classifier is loaded from: hand-written brand
    and variant aliases, and the family aliases generated from each
    family's normalised name by a fixed list of name rules. */
module Aliases {
  import opened Text
  import opened Taxonomy

  /** One dictionary entry: `target` is "brand", "family" or "variant" and
      `key` the normalised name of the entity it points at; `matchType` is
      "token", "phrase" or "regex". */
  datatype AliasDef = AliasDef(target: string, key: string, matchType: string, pattern: string, weight: int := 1)

  // ---------------------------------------------------------------------
  // Hand-written aliases
  // ---------------------------------------------------------------------

  function BrandAliases(): seq<AliasDef> {
    [ AliasDef("brand", "lenovo", "token", "lenovo", 3),
      AliasDef("brand", "lenovo", "token", "леново", 3),
      AliasDef("brand", "hp", "token", "hp", 3),
      AliasDef("brand", "hp", "token", "hewlett", 2),
      AliasDef("brand", "dell", "token", "dell", 3),
      AliasDef("brand", "asus", "token", "asus", 3),
      AliasDef("brand", "asus", "token", "асус", 3),
      AliasDef("brand", "acer", "token", "acer", 3),
      AliasDef("brand", "acer", "token", "асер", 3),
      AliasDef("brand", "acer", "token", "aser", 2),
      AliasDef("brand", "apple", "token", "apple", 3),
      AliasDef("brand", "apple", "token", "macbook", 4),
      AliasDef("brand", "apple", "token", "макбук", 4),
      AliasDef("brand", "msi", "token", "msi", 3),
      AliasDef("brand", "huawei", "token", "huawei", 3),
      AliasDef("brand", "honor", "token", "honor", 3),
      AliasDef("brand", "xiaomi", "token", "xiaomi", 3),
      AliasDef("brand", "samsung", "token", "samsung", 3),
      AliasDef("brand", "samsung", "token", "самсунг", 4) ]
  }

  /** Low-weight hints at a brand from a model code written without it. */
  function BrandRegexAliases(): seq<AliasDef> {
    [ AliasDef("brand", "hp", "regex", "\\b(2[45]0|25[05]|24[05])\\s*g\\d{1,2}\\b", 2),
      AliasDef("brand", "hp", "regex", "\\b(4[45]0|4[47]0)\\s*g\\d{1,2}\\b", 2),
      AliasDef("brand", "hp", "regex", "\\b(84\\d|85\\d)\\s*g\\d{1,2}\\b", 2),
      AliasDef("brand", "dell", "regex", "\\blatitude\\s*(3\\d{3}|5\\d{3}|7\\d{3})\\b", 2),
      AliasDef("brand", "dell", "regex", "\\b(inspiron|vostro)\\s*\\d{4}\\b", 2),
      AliasDef("brand", "lenovo", "regex", "\\bthinkpad\\s*[txelp]\\d{2,4}\\b", 2) ]
  }

  function VariantAliases(): seq<AliasDef> {
    [ AliasDef("variant", "lenovo thinkpad t14 gen 1", "phrase", "t14 gen 1", 10),
      AliasDef("variant", "lenovo thinkpad t14 gen 2", "phrase", "t14 gen 2", 10),
      AliasDef("variant", "lenovo thinkpad t14 gen 3", "phrase", "t14 gen 3", 10),
      AliasDef("variant", "lenovo thinkpad t14 gen 4", "phrase", "t14 gen 4", 10),
      AliasDef("variant", "apple macbook air 13 m1", "phrase", "air m1", 10),
      AliasDef("variant", "apple macbook air 13 m2", "phrase", "air m2", 10),
      AliasDef("variant", "apple macbook air 13 m3", "phrase", "air m3", 10) ]
  }

  /** Every brand alias is a token of weight at least 2 pointing at a listed brand. */
  lemma BrandAliasesShape()
    ensures |BrandAliases()| == 19
    ensures forall i :: 0 <= i < |BrandAliases()| ==>
      var a := BrandAliases()[i];
      a.target == "brand" && a.matchType == "token" && a.weight >= 2
  {
  }

  lemma BrandAliasKeysListed()
    ensures forall i :: 0 <= i < |BrandAliases()| ==> IsBrandNorm(BrandAliases()[i].key)
  {
    forall i | 0 <= i < |BrandAliases()|
      ensures IsBrandNorm(BrandAliases()[i].key)
    {
      var k := BrandAliases()[i].key;
      if k in FamilyBrands() {
        FamilyBrandListed(k);
      } else {
        OtherBrandListed(k);
      }
    }
  }

  lemma OtherBrandListed(n: string)
    requires n in {"msi", "huawei", "honor", "xiaomi", "samsung"}
    ensures IsBrandNorm(n)
  {
    MsiListed(); HuaweiListed(); HonorListed(); XiaomiListed(); SamsungListed();
  }

  /** Every brand regex alias is a regex of weight 2 pointing at a listed brand. */
  lemma BrandRegexAliasesShape()
    ensures |BrandRegexAliases()| == 6
    ensures forall a :: a in BrandRegexAliases() ==> a.target == "brand" && a.matchType == "regex" && a.weight == 2
    ensures forall a :: a in BrandRegexAliases() ==> IsBrandNorm(a.key)
  {
    LenovoListed(); HpListed(); DellListed();
  }

  /** Every variant alias is a phrase of weight 10 pointing at a listed variant. */
  lemma VariantAliasesShape()
    ensures |VariantAliases()| == 7
    ensures forall i :: 0 <= i < 7 ==>
      var a := VariantAliases()[i];
      a.target == "variant" && a.matchType == "phrase" && a.weight == 10 && a.key == Variants()[i].variantNameNorm
  {
  }

  // ---------------------------------------------------------------------
  // Name rules
  // ---------------------------------------------------------------------

  /** One element of a name rule: a literal matched case-insensitively,
      `\s+`, or a captured `\d{lo,hi}`. */
  datatype Piece = Lit(w: string) | Spaces | Digits(lo: nat, hi: nat)

  /** `$` at `i`: the end of the text, or just before a final newline. */
  predicate AtEnd(t: string, i: nat) {
    i == |t| || (i + 1 == |t| && t[i] == '\n')
  }

  /** The captures of the anchored match of `ps[j..]` against `t` from `i`
      to the end, or `None`. In every rule a space run is followed by a
      letter or a digit and a digit run by a space run or the end, so
      taking whole runs finds the only possible match. */
  function MatchFrom(t: string, i: nat, ps: seq<Piece>, j: nat): (r: Option<seq<string>>)
    requires i <= |t| && j <= |ps|
    decreases |ps| - j
    ensures r.Some? ==> |r.value| == DigitPieces(ps, j)
    ensures r.Some? ==> forall k :: 0 <= k < |r.value| ==> |r.value[k]| > 0 && AllDigits(r.value[k])
  {
    if j == |ps| then
      if AtEnd(t, i) then Some([]) else None
    else match ps[j]
      case Lit(w) =>
        if LiteralAt(t, i, w) then MatchFrom(t, i + |w|, ps, j + 1) else None
      case Spaces =>
        var e := RunEnd(t, i, IsSpace);
        if e > i then MatchFrom(t, e, ps, j + 1) else None
      case Digits(lo, hi) =>
        var e := RunEnd(t, i, IsDigit);
        if 0 < lo <= e - i <= hi then
          match MatchFrom(t, e, ps, j + 1)
          case Some(caps) => Some([t[i..e]] + caps)
          case None => None
        else None
  }

  /** The number of capturing pieces in `ps[j..]`. */
  function DigitPieces(ps: seq<Piece>, j: nat): nat
    requires j <= |ps|
    decreases |ps| - j
  {
    if j == |ps| then 0 else (if ps[j].Digits? then 1 else 0) + DigitPieces(ps, j + 1)
  }

  /** `re.match(pattern, t, re.I)` for a name rule: the captured digit groups. */
  function Match(t: string, ps: seq<Piece>): Option<seq<string>> {
    MatchFrom(t, 0, ps, 0)
  }

  /** The family-name rules, in the order they are tried. */
  datatype Rule =
    | HpGRule | EliteBookRule | ProBookRule
    | LatitudeRule | InspironRule | VostroRule
    | ThinkPadTRule | ThinkPadXRule | ThinkPadERule | ThinkPadLRule | ThinkPadPRule
    | VivoBookRule | ZenBookRule | TufRule
    | A315Rule | NitroRule | SwiftRule

  function Rules(): seq<Rule> {
    [ HpGRule, EliteBookRule, ProBookRule,
      LatitudeRule, InspironRule, VostroRule,
      ThinkPadTRule, ThinkPadXRule, ThinkPadERule, ThinkPadLRule, ThinkPadPRule,
      VivoBookRule, ZenBookRule, TufRule,
      A315Rule, NitroRule, SwiftRule ]
  }

  lemma RulePositions()
    ensures |Rules()| == 17 && Rules()[0] == HpGRule && Rules()[6] == ThinkPadTRule
  {
  }

  function RulePattern(r: Rule): seq<Piece> {
    match r
    case HpGRule => [Lit("hp"), Spaces, Digits(3, 3), Spaces, Lit("g"), Digits(1, 2)]
    case EliteBookRule => [Lit("hp"), Spaces, Lit("elitebook"), Spaces, Digits(3, 3), Spaces, Lit("g"), Digits(1, 2)]
    case ProBookRule => [Lit("hp"), Spaces, Lit("probook"), Spaces, Digits(3, 3), Spaces, Lit("g"), Digits(1, 2)]
    case LatitudeRule => [Lit("dell"), Spaces, Lit("latitude"), Spaces, Digits(4, 4)]
    case InspironRule => [Lit("dell"), Spaces, Lit("inspiron"), Spaces, Digits(4, 4)]
    case VostroRule => [Lit("dell"), Spaces, Lit("vostro"), Spaces, Digits(4, 4)]
    case ThinkPadTRule => [Lit("lenovo"), Spaces, Lit("thinkpad"), Spaces, Lit("t"), Digits(3, 4)]
    case ThinkPadXRule => [Lit("lenovo"), Spaces, Lit("thinkpad"), Spaces, Lit("x"), Digits(3, 4)]
    case ThinkPadERule => [Lit("lenovo"), Spaces, Lit("thinkpad"), Spaces, Lit("e"), Digits(3, 4)]
    case ThinkPadLRule => [Lit("lenovo"), Spaces, Lit("thinkpad"), Spaces, Lit("l"), Digits(3, 4)]
    case ThinkPadPRule => [Lit("lenovo"), Spaces, Lit("thinkpad"), Spaces, Lit("p"), Digits(1, 3)]
    case VivoBookRule => [Lit("asus"), Spaces, Lit("vivobook"), Spaces, Lit("x"), Digits(3, 3)]
    case ZenBookRule => [Lit("asus"), Spaces, Lit("zenbook"), Spaces, Lit("ux"), Digits(3, 3)]
    case TufRule => [Lit("asus"), Spaces, Lit("tuf"), Spaces, Lit("gaming"), Spaces, Lit("fx"), Digits(3, 3)]
    case A315Rule => [Lit("acer"), Spaces, Lit("aspire"), Spaces, Lit("a315-"), Digits(2, 2)]
    case NitroRule => [Lit("acer"), Spaces, Lit("nitro"), Spaces, Lit("5"), Spaces, Lit("an"), Digits(3, 3)]
    case SwiftRule => [Lit("acer"), Spaces, Lit("swift"), Spaces, Digits(3, 3)]
  }

  /** The HP rules capture a series and a generation; the others one number. */
  function Captures(r: Rule): nat {
    if r == HpGRule || r == EliteBookRule || r == ProBookRule then 2 else 1
  }

  function Token(norm: string, p: string, w: int): AliasDef { AliasDef("family", norm, "token", p, w) }

  function Phrase(norm: string, p: string, w: int): AliasDef { AliasDef("family", norm, "phrase", p, w) }

  /** The aliases rule `r` emits for the family `norm`, given its captures. */
  function RuleAliases(r: Rule, norm: string, caps: seq<string>): seq<AliasDef>
    requires |caps| == Captures(r)
  {
    var n := caps[0];
    match r
    case HpGRule => [Token(norm, n + "g" + caps[1], 9), Phrase(norm, n + " g" + caps[1], 10)]
    case EliteBookRule =>
      [Token(norm, n + "g" + caps[1], 9), Phrase(norm, "elitebook " + n + " g" + caps[1], 10), Phrase(norm, n + " g" + caps[1], 8)]
    case ProBookRule =>
      [Token(norm, n + "g" + caps[1], 9), Phrase(norm, "probook " + n + " g" + caps[1], 10), Phrase(norm, n + " g" + caps[1], 8)]
    case LatitudeRule => [Token(norm, n, 8), Phrase(norm, "latitude " + n, 9)]
    case InspironRule => [Token(norm, n, 7), Phrase(norm, "inspiron " + n, 9)]
    case VostroRule => [Token(norm, n, 7), Phrase(norm, "vostro " + n, 9)]
    case ThinkPadTRule => [Token(norm, "t" + n, 9), Phrase(norm, "thinkpad t" + n, 10)]
    case ThinkPadXRule => [Token(norm, "x" + n, 9), Phrase(norm, "thinkpad x" + n, 10)]
    case ThinkPadERule => [Token(norm, "e" + n, 8), Phrase(norm, "thinkpad e" + n, 9)]
    case ThinkPadLRule => [Token(norm, "l" + n, 8), Phrase(norm, "thinkpad l" + n, 9)]
    case ThinkPadPRule => [Token(norm, "p" + n, 7), Phrase(norm, "thinkpad p" + n, 8)]
    case VivoBookRule => [Token(norm, "x" + n, 8), Phrase(norm, "vivobook x" + n, 10)]
    case ZenBookRule => [Token(norm, "ux" + n, 8), Phrase(norm, "zenbook ux" + n, 10)]
    case TufRule => [Token(norm, "fx" + n, 8), Phrase(norm, "tuf fx" + n, 9)]
    case A315Rule => [Token(norm, "a315-" + n, 9), Phrase(norm, "a315-" + n, 10), Phrase(norm, "aspire a315-" + n, 9)]
    case NitroRule => [Token(norm, "an" + n, 10), Phrase(norm, "nitro 5 an" + n, 9), Phrase(norm, "nitro 5", 6)]
    case SwiftRule => [Token(norm, "swift" + n, 7), Phrase(norm, "swift " + n, 9)]
  }

  /** Each rule's pattern has as many capturing pieces as its aliases use. */
  lemma CapturesAgree(r: Rule)
    ensures DigitPieces(RulePattern(r), 0) == Captures(r)
  {
    HpCaptures(); DellCaptures(); ThinkPadCaptures(); AsusCaptures(); AcerCaptures();
  }

  lemma HpCaptures()
    ensures DigitPieces(RulePattern(HpGRule), 0) == 2
    ensures DigitPieces(RulePattern(EliteBookRule), 0) == 2
    ensures DigitPieces(RulePattern(ProBookRule), 0) == 2
  {
  }

  lemma DellCaptures()
    ensures DigitPieces(RulePattern(LatitudeRule), 0) == 1
    ensures DigitPieces(RulePattern(InspironRule), 0) == 1
    ensures DigitPieces(RulePattern(VostroRule), 0) == 1
  {
  }

  lemma ThinkPadCaptures()
    ensures DigitPieces(RulePattern(ThinkPadTRule), 0) == 1
    ensures DigitPieces(RulePattern(ThinkPadXRule), 0) == 1
    ensures DigitPieces(RulePattern(ThinkPadERule), 0) == 1
    ensures DigitPieces(RulePattern(ThinkPadLRule), 0) == 1
    ensures DigitPieces(RulePattern(ThinkPadPRule), 0) == 1
  {
  }

  lemma AsusCaptures()
    ensures DigitPieces(RulePattern(VivoBookRule), 0) == 1
    ensures DigitPieces(RulePattern(ZenBookRule), 0) == 1
    ensures DigitPieces(RulePattern(TufRule), 0) == 1
  {
  }

  lemma AcerCaptures()
    ensures DigitPieces(RulePattern(A315Rule), 0) == 1
    ensures DigitPieces(RulePattern(NitroRule), 0) == 1
    ensures DigitPieces(RulePattern(SwiftRule), 0) == 1
  {
  }

  /** Whether rule `r` matches `norm`. */
  function Matching(norm: string): Rule -> bool {
    r => Match(norm, RulePattern(r)).Some?
  }

  /** The position of the first rule from `j` on that satisfies `p`. */
  function FirstWhere(p: Rule -> bool, rules: seq<Rule>, j: nat): (k: Option<nat>)
    requires j <= |rules|
    decreases |rules| - j
    ensures k.Some? ==> j <= k.value < |rules| && p(rules[k.value])
    ensures k.Some? ==> forall i :: j <= i < k.value ==> !p(rules[i])
    ensures k.None? ==> forall i :: j <= i < |rules| ==> !p(rules[i])
  {
    if j == |rules| then None
    else if p(rules[j]) then Some(j)
    else FirstWhere(p, rules, j + 1)
  }

  /** A rule that satisfies `p` after no earlier rule did is the one chosen. */
  lemma {:induction false} FirstWhereAt(p: Rule -> bool, rules: seq<Rule>, j: nat, k: nat)
    requires j <= k < |rules| && p(rules[k])
    requires forall i :: j <= i < k ==> !p(rules[i])
    ensures FirstWhere(p, rules, j) == Some(k)
    decreases k - j
  {
    if j < k {
      FirstWhereAt(p, rules, j + 1, k);
    }
  }

  /** When no rule satisfies `p`, none is chosen. */
  lemma {:induction false} FirstWhereNone(p: Rule -> bool, rules: seq<Rule>, j: nat)
    requires j <= |rules|
    requires forall i :: j <= i < |rules| ==> !p(rules[i])
    ensures FirstWhere(p, rules, j) == None
    decreases |rules| - j
  {
    if j < |rules| {
      FirstWhereNone(p, rules, j + 1);
    }
  }

  /** The aliases generated for one family: those of the first rule its
      normalised name matches; otherwise, for a MacBook, the name without
      "apple " as a phrase; otherwise none. */
  function FamilyAliases(f: FamilyDef): seq<AliasDef> {
    var norm := f.familyNameNorm;
    match FirstWhere(Matching(norm), Rules(), 0)
    case Some(k) =>
      var r := Rules()[k];
      CapturesAgree(r);
      RuleAliases(r, norm, Match(norm, RulePattern(r)).value)
    case None =>
      if StartsWith(norm, "apple macbook") then [Phrase(norm, ReplaceAll(norm, "apple ", ""), 8)] else []
  }

  /** The aliases of a family whose name the rule at position `k` is the first to match. */
  lemma ChosenRuleAliases(f: FamilyDef, k: nat)
    requires FirstWhere(Matching(f.familyNameNorm), Rules(), 0) == Some(k)
    ensures k < |Rules()| && Match(f.familyNameNorm, RulePattern(Rules()[k])).Some?
    ensures |Match(f.familyNameNorm, RulePattern(Rules()[k])).value| == Captures(Rules()[k])
    ensures FamilyAliases(f) == RuleAliases(Rules()[k], f.familyNameNorm, Match(f.familyNameNorm, RulePattern(Rules()[k])).value)
  {
    CapturesAgree(Rules()[k]);
  }

  /** The aliases of every family in order, before duplicates are removed. */
  function AllFamilyAliases(fs: seq<FamilyDef>): seq<AliasDef> {
    if fs == [] then [] else AllFamilyAliases(fs[..|fs| - 1]) + FamilyAliases(fs[|fs| - 1])
  }

  // ---------------------------------------------------------------------
  // Order-preserving deduplication
  // ---------------------------------------------------------------------

  /** `xs` with every alias after its first occurrence removed. */
  function Uniq(xs: seq<AliasDef>): seq<AliasDef> {
    if xs == [] then []
    else
      var p := Uniq(xs[..|xs| - 1]);
      var x := xs[|xs| - 1];
      if x in p then p else p + [x]
  }

  predicate NoDuplicates(xs: seq<AliasDef>) {
    forall i, j :: 0 <= i < j < |xs| ==> xs[i] != xs[j]
  }

  /** Deduplication keeps exactly the aliases it is given. */
  lemma {:induction false} UniqElements(xs: seq<AliasDef>)
    ensures forall a :: a in Uniq(xs) <==> a in xs
  {
    if xs != [] {
      UniqElements(xs[..|xs| - 1]);
      assert xs == xs[..|xs| - 1] + [xs[|xs| - 1]];
    }
  }

  /** Deduplication leaves no alias twice. */
  lemma {:induction false} UniqNoDuplicates(xs: seq<AliasDef>)
    ensures NoDuplicates(Uniq(xs))
  {
    if xs != [] {
      UniqNoDuplicates(xs[..|xs| - 1]);
    }
  }

  /** Deduplicating a longer list only appends: each alias stays where its
      first occurrence put it. */
  lemma {:induction false} UniqExtends(a: seq<AliasDef>, b: seq<AliasDef>)
    ensures Uniq(a) <= Uniq(a + b)
    decreases |b|
  {
    if b != [] {
      var c := b[..|b| - 1];
      UniqExtends(a, c);
      assert (a + b)[..|a + b| - 1] == a + c;
    } else {
      assert a + b == a;
    }
  }

  /** A list without duplicates is left as it is. */
  lemma {:induction false} UniqNoOp(xs: seq<AliasDef>)
    requires NoDuplicates(xs)
    ensures Uniq(xs) == xs
  {
    if xs != [] {
      var p := xs[..|xs| - 1];
      UniqNoOp(p);
      UniqElements(p);
      assert xs == p + [xs[|xs| - 1]];
    }
  }

  /** `_uniq`: one pass with a `seen` set. */
  method Dedup(xs: seq<AliasDef>) returns (out: seq<AliasDef>)
    ensures out == Uniq(xs)
  {
    var seen: set<AliasDef> := {};
    out := [];
    for i := 0 to |xs|
      invariant out == Uniq(xs[..i])
      invariant forall a :: a in seen <==> a in out
    {
      var a := xs[i];
      assert xs[..i + 1][..i] == xs[..i];
      if a !in seen {
        seen := seen + {a};
        out := out + [a];
      }
    }
    assert xs[..|xs|] == xs;
  }

  lemma AllFamilyAliasesStep(fs: seq<FamilyDef>, i: nat)
    requires i < |fs|
    ensures AllFamilyAliases(fs[..i + 1]) == AllFamilyAliases(fs[..i]) + FamilyAliases(fs[i])
  {
    assert fs[..i + 1][..i] == fs[..i];
  }

  /** `build_family_aliases`: every family's aliases in order, deduplicated. */
  method BuildFamilyAliases(families: seq<FamilyDef>) returns (r: seq<AliasDef>)
    ensures r == Uniq(AllFamilyAliases(families))
  {
    var out: seq<AliasDef> := [];
    for i := 0 to |families|
      invariant out == AllFamilyAliases(families[..i])
    {
      AllFamilyAliasesStep(families, i);
      out := out + FamilyAliases(families[i]);
    }
    assert families[..|families|] == families;
    r := Dedup(out);
  }

  // ---------------------------------------------------------------------
  // Properties of the generated aliases
  // ---------------------------------------------------------------------

  predicate KeyedTo(a: AliasDef, norm: string) {
    a.target == "family" && a.key == norm
  }

  /** Every rule emits at least one alias, each targeting the family it was
      generated for. */
  lemma RuleAliasesKeyed(r: Rule, norm: string, caps: seq<string>)
    requires |caps| == Captures(r)
    ensures |RuleAliases(r, norm, caps)| > 0
    ensures forall a :: a in RuleAliases(r, norm, caps) ==> KeyedTo(a, norm)
  {
  }

  /** Every alias of a family targets that family by its normalised name. */
  lemma FamilyAliasesKeyed(f: FamilyDef)
    ensures forall a :: a in FamilyAliases(f) ==> KeyedTo(a, f.familyNameNorm)
  {
    var norm := f.familyNameNorm;
    match FirstWhere(Matching(norm), Rules(), 0)
    case Some(k) =>
      var r := Rules()[k];
      CapturesAgree(r);
      RuleAliasesKeyed(r, norm, Match(norm, RulePattern(r)).value);
    case None =>
  }

  /** A family gets aliases exactly when its name matches a rule or names a MacBook. */
  lemma FamilyAliasesNonEmpty(f: FamilyDef)
    ensures |FamilyAliases(f)| > 0 <==>
      (exists j :: 0 <= j < |Rules()| && Match(f.familyNameNorm, RulePattern(Rules()[j])).Some?)
      || StartsWith(f.familyNameNorm, "apple macbook")
  {
    var norm := f.familyNameNorm;
    var found := FirstWhere(Matching(norm), Rules(), 0);
    if found.Some? {
      var k := found.value;
      ChosenRuleAliases(f, k);
      var r := Rules()[k];
      RuleAliasesKeyed(r, norm, Match(norm, RulePattern(r)).value);
    } else {
      NoRuleMatches(norm);
      assert FamilyAliases(f) ==
        if StartsWith(norm, "apple macbook") then [Phrase(norm, ReplaceAll(norm, "apple ", ""), 8)] else [];
    }
  }

  /** When no rule is chosen, no rule matches at all. */
  lemma NoRuleMatches(norm: string)
    requires FirstWhere(Matching(norm), Rules(), 0).None?
    ensures !exists j :: 0 <= j < |Rules()| && Match(norm, RulePattern(Rules()[j])).Some?
  {
    forall j | 0 <= j < |Rules()|
      ensures Match(norm, RulePattern(Rules()[j])).None?
    {
      assert !Matching(norm)(Rules()[j]);
    }
  }

  /** Every generated alias targets a family of the input list by its normalised name. */
  lemma {:induction false} AllFamilyAliasesKeyed(fs: seq<FamilyDef>)
    ensures forall a :: a in AllFamilyAliases(fs) ==> exists f :: f in fs && KeyedTo(a, f.familyNameNorm)
  {
    if fs != [] {
      var p := fs[..|fs| - 1];
      var f := fs[|fs| - 1];
      AllFamilyAliasesKeyed(p);
      FamilyAliasesKeyed(f);
      forall a | a in AllFamilyAliases(fs)
        ensures exists g :: g in fs && KeyedTo(a, g.familyNameNorm)
      {
        if a in AllFamilyAliases(p) {
          var g :| g in p && KeyedTo(a, g.familyNameNorm);
          assert g in fs;
        } else {
          assert f in fs && KeyedTo(a, f.familyNameNorm);
        }
      }
    }
  }

  /** The dictionary built from `fs` holds every generated alias once, each
      keyed to a family of `fs`. */
  lemma BuiltAliasesKeyed(fs: seq<FamilyDef>)
    ensures NoDuplicates(Uniq(AllFamilyAliases(fs)))
    ensures forall a :: a in Uniq(AllFamilyAliases(fs)) <==> a in AllFamilyAliases(fs)
    ensures forall a :: a in Uniq(AllFamilyAliases(fs)) ==> exists f :: f in fs && KeyedTo(a, f.familyNameNorm)
  {
    UniqNoDuplicates(AllFamilyAliases(fs));
    UniqElements(AllFamilyAliases(fs));
    AllFamilyAliasesKeyed(fs);
  }

  // ---------------------------------------------------------------------
  // Matching one piece at a time
  // ---------------------------------------------------------------------

  lemma StepLit(t: string, i: nat, ps: seq<Piece>, j: nat, w: string)
    requires i <= |t| && j < |ps| && ps[j] == Lit(w) && LiteralAt(t, i, w)
    ensures MatchFrom(t, i, ps, j) == MatchFrom(t, i + |w|, ps, j + 1)
  {
  }

  lemma FailLit(t: string, i: nat, ps: seq<Piece>, j: nat, w: string)
    requires i <= |t| && j < |ps| && ps[j] == Lit(w) && !LiteralAt(t, i, w)
    ensures MatchFrom(t, i, ps, j).None?
  {
  }

  /** A single space before a non-space. */
  lemma StepSpace(t: string, i: nat, ps: seq<Piece>, j: nat)
    requires i < |t| && j < |ps| && ps[j] == Spaces && IsSpace(t[i])
    requires i + 1 < |t| ==> !IsSpace(t[i + 1])
    ensures MatchFrom(t, i, ps, j) == MatchFrom(t, i + 1, ps, j + 1)
  {
    RunEndAt(t, i, i + 1, IsSpace);
  }

  /** A digit run of admissible length, not followed by another digit. */
  lemma StepDigits(t: string, i: nat, e: nat, ps: seq<Piece>, j: nat)
    requires i < e <= |t| && j < |ps| && ps[j].Digits? && 0 < ps[j].lo <= e - i <= ps[j].hi
    requires forall k :: i <= k < e ==> IsDigit(t[k])
    requires e < |t| ==> !IsDigit(t[e])
    ensures MatchFrom(t, e, ps, j + 1).Some? ==> MatchFrom(t, i, ps, j) == Some([t[i..e]] + MatchFrom(t, e, ps, j + 1).value)
    ensures MatchFrom(t, e, ps, j + 1).None? ==> MatchFrom(t, i, ps, j).None?
  {
    RunEndAt(t, i, e, IsDigit);
  }

  // ---------------------------------------------------------------------
  // Aliases of the generated families
  // ---------------------------------------------------------------------

  /** The shape of "hp <series> g<gen>", position by position. */
  predicate HpGShaped(t: string) {
    (|t| == 9 || |t| == 10) && t[0] == 'h' && t[1] == 'p' && t[2] == ' ' && t[6] == ' ' && t[7] == 'g'
    && (forall k :: 3 <= k < 6 ==> IsDigit(t[k])) && (forall k :: 8 <= k < |t| ==> IsDigit(t[k]))
  }

  lemma HpGTailMatches(t: string)
    requires HpGShaped(t)
    ensures MatchFrom(t, 6, RulePattern(HpGRule), 3) == Some([t[8..]])
  {
    var ps := RulePattern(HpGRule);
    assert MatchFrom(t, |t|, ps, 6) == Some([]);
    StepDigits(t, 8, |t|, ps, 5);
    assert t[8..|t|] == t[8..];
    assert [t[8..|t|]] + [] == [t[8..]];
    StepLit(t, 7, ps, 4, "g");
    StepSpace(t, 6, ps, 3);
  }

  /** A name of that shape matches the first HP rule, capturing both numbers. */
  lemma HpGMatches(t: string)
    requires HpGShaped(t)
    ensures Match(t, RulePattern(HpGRule)) == Some([t[3..6], t[8..]])
  {
    var ps := RulePattern(HpGRule);
    HpGTailMatches(t);
    StepDigits(t, 3, 6, ps, 2);
    assert [t[3..6]] + [t[8..]] == [t[3..6], t[8..]];
    StepSpace(t, 2, ps, 1);
    StepLit(t, 0, ps, 0, "hp");
  }

  /** A name "hp <series> g<gen>" has that shape. */
  lemma HpGNameShaped(s: string, g: string)
    requires |s| == 3 && AllDigits(s) && 1 <= |g| <= 2 && AllDigits(g)
    ensures var t := "hp " + s + " g" + g; HpGShaped(t) && t[3..6] == s && t[8..] == g
  {
  }

  /** Such a name gets exactly the token "<series>g<gen>" and the phrase
      "<series> g<gen>". */
  lemma HpGNameAliases(f: FamilyDef, s: string, g: string)
    requires |s| == 3 && AllDigits(s) && 1 <= |g| <= 2 && AllDigits(g)
    requires f.familyNameNorm == "hp " + s + " g" + g
    ensures FamilyAliases(f) == [Token(f.familyNameNorm, s + "g" + g, 9), Phrase(f.familyNameNorm, s + " g" + g, 10)]
  {
    HpGNameShaped(s, g);
    HpGMatches(f.familyNameNorm);
  }

  const HpExample := "hp 250 g8"

  /** For example "hp 250 g8" yields the token "250g8" and the phrase "250 g8". */
  lemma HpGExample(f: FamilyDef)
    requires f.familyNameNorm == HpExample
    ensures FamilyAliases(f) == [Token(HpExample, "250g8", 9), Phrase(HpExample, "250 g8", 10)]
  {
    HpExampleParts();
    HpGNameAliases(f, "250", "8");
  }

  lemma HpExampleParts()
    ensures HpExample == "hp " + "250" + " g" + "8"
    ensures "250" + "g" + "8" == "250g8" && "250" + " g" + "8" == "250 g8"
    ensures |"250"| == 3 && AllDigits("250") && |"8"| == 1 && AllDigits("8")
  {
  }

  /** Each rule starts with a brand word. */
  function FirstWord(r: Rule): string {
    if r in {HpGRule, EliteBookRule, ProBookRule} then "hp"
    else if r in {LatitudeRule, InspironRule, VostroRule} then "dell"
    else if r in {ThinkPadTRule, ThinkPadXRule, ThinkPadERule, ThinkPadLRule, ThinkPadPRule} then "lenovo"
    else if r in {VivoBookRule, ZenBookRule, TufRule} then "asus"
    else "acer"
  }

  lemma RuleStartsWithBrand(r: Rule)
    ensures |RulePattern(r)| > 0 && RulePattern(r)[0] == Lit(FirstWord(r))
  {
  }

  /** A rule fails on a name that does not start with the rule's brand word. */
  lemma RuleFailsOnBrand(t: string, r: Rule)
    requires !LiteralAt(t, 0, FirstWord(r))
    ensures !Matching(t)(r)
  {
    RuleStartsWithBrand(r);
    FailLit(t, 0, RulePattern(r), 0, FirstWord(r));
  }

  /** No rule matches a name starting "apple macbook": none starts with "ap". */
  lemma NoRuleMatchesMacBook(t: string)
    requires StartsWith(t, "apple macbook")
    ensures forall r :: !Matching(t)(r)
  {
    assert t[0] == 'a' && t[1] == 'p';
    forall r
      ensures !Matching(t)(r)
    {
      RuleFailsOnBrand(t, r);
    }
  }

  /** A MacBook family gets one phrase: its name without "apple ", at weight 8. */
  lemma MacBookAliases(f: FamilyDef)
    requires StartsWith(f.familyNameNorm, "apple macbook")
    ensures FamilyAliases(f) == [Phrase(f.familyNameNorm, ReplaceAll(f.familyNameNorm, "apple ", ""), 8)]
  {
    NoRuleMatchesMacBook(f.familyNameNorm);
    FirstWhereNone(Matching(f.familyNameNorm), Rules(), 0);
  }

  const MacBookAirNorm := "apple macbook air 13"

  lemma MacBookAirParts()
    ensures StartsWith(MacBookAirNorm, "apple macbook")
    ensures ReplaceAll(MacBookAirNorm, "apple ", "") == "macbook air 13"
  {
    var rest := "macbook air 13";
    assert MacBookAirNorm == "apple macbook" + " air 13";
    StartsWithAppend("apple macbook", " air 13");
    assert MacBookAirNorm == "apple " + rest;
    MissingCharNotContained(rest, "apple ", 1);
    ReplaceLeading("apple ", rest);
  }

  /** For example "apple macbook air 13" yields the phrase "macbook air 13". */
  lemma MacBookAirExample(f: FamilyDef)
    requires f.familyNameNorm == MacBookAirNorm
    ensures FamilyAliases(f) == [Phrase(MacBookAirNorm, "macbook air 13", 8)]
  {
    MacBookAirParts();
    MacBookAliases(f);
  }

  /** Every generated "HP <series> G<gen>" family gets the token and the
      phrase of the first HP rule. */
  lemma GeneratedHpGAliases(p: string, m: int)
    requires |p| == 3 && AllDigits(p) && 1 <= m < 100
    ensures var f := Member(HpG(p), m);
      FamilyAliases(f) == [Token(f.familyNameNorm, p + "g" + NatToString(m), 9), Phrase(f.familyNameNorm, p + " g" + NatToString(m), 10)]
  {
    LowerDigits(p);
    NatToStringLength(m);
    HpGNameAliases(Member(HpG(p), m), p, NatToString(m));
  }

  const TPrefix := "lenovo thinkpad t"

  /** The shape of "lenovo thinkpad t<number>" with a three- or four-digit number. */
  predicate ThinkPadTShaped(t: string) {
    20 <= |t| <= 21 && t[..17] == TPrefix && forall k :: 17 <= k < |t| ==> IsDigit(t[k])
  }

  lemma TPrefixWords(t: string)
    requires |t| >= 17 && t[..17] == TPrefix
    ensures LiteralAt(t, 0, "lenovo") && LiteralAt(t, 7, "thinkpad") && LiteralAt(t, 16, "t")
    ensures IsSpace(t[6]) && !IsSpace(t[7]) && IsSpace(t[15]) && !IsSpace(t[16])
    ensures t[0] == 'l'
  {
    assert forall k :: 0 <= k < 17 ==> t[k] == TPrefix[k];
  }

  lemma ThinkPadTTailMatches(t: string)
    requires 20 <= |t| <= 21 && IsSpace(t[15]) && !IsSpace(t[16]) && LiteralAt(t, 16, "t")
    requires forall k :: 17 <= k < |t| ==> IsDigit(t[k])
    ensures MatchFrom(t, 15, RulePattern(ThinkPadTRule), 3) == Some([t[17..]])
  {
    var ps := RulePattern(ThinkPadTRule);
    StepSpace(t, 15, ps, 3);
    StepLit(t, 16, ps, 4, "t");
    StepDigits(t, 17, |t|, ps, 5);
    assert MatchFrom(t, |t|, ps, 6) == Some([]);
    assert t[17..|t|] == t[17..];
    assert [t[17..|t|]] + [] == [t[17..]];
  }

  lemma ThinkPadTHeadSteps(t: string)
    requires 16 <= |t| && LiteralAt(t, 0, "lenovo") && IsSpace(t[6]) && !IsSpace(t[7]) && LiteralAt(t, 7, "thinkpad")
    ensures Match(t, RulePattern(ThinkPadTRule)) == MatchFrom(t, 15, RulePattern(ThinkPadTRule), 3)
  {
    var ps := RulePattern(ThinkPadTRule);
    StepLit(t, 0, ps, 0, "lenovo");
    StepSpace(t, 6, ps, 1);
    StepLit(t, 7, ps, 2, "thinkpad");
  }

  /** A name of that shape matches the ThinkPad T rule, capturing the number. */
  lemma ThinkPadTMatches(t: string)
    requires ThinkPadTShaped(t)
    ensures Match(t, RulePattern(ThinkPadTRule)) == Some([t[17..]])
  {
    TPrefixWords(t);
    ThinkPadTHeadSteps(t);
    ThinkPadTTailMatches(t);
  }

  /** The HP and Dell rules, tried before it, fail on such a name. */
  lemma ThinkPadTSkipsEarlierRules(t: string)
    requires ThinkPadTShaped(t)
    ensures forall i :: 0 <= i < 6 ==> !Matching(t)(Rules()[i])
  {
    TPrefixWords(t);
    forall i | 0 <= i < 6
      ensures !Matching(t)(Rules()[i])
    {
      assert FirstWord(Rules()[i]) == (if i < 3 then "hp" else "dell");
      RuleFailsOnBrand(t, Rules()[i]);
    }
  }

  /** Such a name gets the token "t<number>" and the phrase "thinkpad t<number>". */
  lemma ThinkPadTNameAliases(f: FamilyDef, n: string)
    requires Match(f.familyNameNorm, RulePattern(ThinkPadTRule)) == Some([n])
    requires forall i :: 0 <= i < 6 ==> !Matching(f.familyNameNorm)(Rules()[i])
    ensures FamilyAliases(f) == [Token(f.familyNameNorm, "t" + n, 9), Phrase(f.familyNameNorm, "thinkpad t" + n, 10)]
  {
    RulePositions();
    FirstWhereAt(Matching(f.familyNameNorm), Rules(), 0, 6);
    ChosenRuleAliases(f, 6);
  }

  lemma ThinkPadTHead()
    ensures "lenovo thinkpad " + Lower("T") == TPrefix
  {
    assert Lower("T") == "t";
  }

  /** Every generated "Lenovo ThinkPad T<number>" family gets the token and
      the phrase of the ThinkPad T rule. */
  lemma GeneratedThinkPadTAliases(m: int)
    requires 100 <= m < 10000
    ensures var f := Member(ThinkPad("T"), m);
      FamilyAliases(f) == [Token(f.familyNameNorm, "t" + NatToString(m), 9), Phrase(f.familyNameNorm, "thinkpad t" + NatToString(m), 10)]
  {
    var n := NatToString(m);
    ThinkPadTHead();
    NatToStringLength(m);
    var norm := Member(ThinkPad("T"), m).familyNameNorm;
    assert norm == TPrefix + n;
    assert norm[..17] == TPrefix && norm[17..] == n;
    ThinkPadTMatches(norm);
    ThinkPadTSkipsEarlierRules(norm);
    ThinkPadTNameAliases(Member(ThinkPad("T"), m), n);
  }
}
