/** The laptop taxonomy the dictionary is seeded from: brands, the
    families generated from numbered model series, and a few variants. */
module Taxonomy {
  import opened Text

  datatype BrandDef = BrandDef(name: string, nameNorm: string)

  datatype FamilyDef = FamilyDef(brandNorm: string, familyName: string, familyNameNorm: string)

  datatype VariantDef = VariantDef(
    familyNameNorm: string,
    variantName: string,
    variantNameNorm: string,
    gen: Option<int> := None,
    year: Option<int> := None)

  // ---------------------------------------------------------------------
  // Brands
  // ---------------------------------------------------------------------

  function Brands(): seq<BrandDef> {
    [ BrandDef("Lenovo", "lenovo"),
      BrandDef("HP", "hp"),
      BrandDef("Dell", "dell"),
      BrandDef("Asus", "asus"),
      BrandDef("Acer", "acer"),
      BrandDef("Apple", "apple"),
      BrandDef("MSI", "msi"),
      BrandDef("Huawei", "huawei"),
      BrandDef("Honor", "honor"),
      BrandDef("Xiaomi", "xiaomi"),
      BrandDef("Samsung", "samsung"),
      BrandDef("Toshiba", "toshiba"),
      BrandDef("Sony", "sony"),
      BrandDef("Fujitsu", "fujitsu"),
      BrandDef("LG", "lg"),
      BrandDef("Gigabyte", "gigabyte"),
      BrandDef("Microsoft", "microsoft"),
      BrandDef("Razer", "razer"),
      BrandDef("Haier", "haier"),
      BrandDef("Chuwi", "chuwi"),
      BrandDef("Infinix", "infinix"),
      BrandDef("Maibenben", "maibenben"),
      BrandDef("Digma", "digma"),
      BrandDef("Irbis", "irbis"),
      BrandDef("DEXP", "dexp"),
      BrandDef("DNS", "dns"),
      BrandDef("Roverbook", "roverbook"),
      BrandDef("Ardor", "ardor"),
      BrandDef("Packard Bell", "packard bell"),
      BrandDef("eMachines", "emachines"),
      BrandDef("Thunderobot", "thunderobot"),
      BrandDef("Tecno", "tecno"),
      BrandDef("Hasee", "hasee") ]
  }

  /** `n` is the normalised name of a listed brand. */
  predicate IsBrandNorm(n: string) {
    exists i :: 0 <= i < |Brands()| && Brands()[i].nameNorm == n
  }

  /** No two brands share a normalised name, which the unique index on
      brand names requires of the seed data. */
  lemma BrandNormsDistinct()
    ensures forall i, j :: 0 <= i < j < |Brands()| ==> Brands()[i].nameNorm != Brands()[j].nameNorm
  {
    BrandNormsDistinctLow();
    BrandNormsDistinctLowMid();
    BrandNormsDistinctMid();
    BrandNormsDistinctHigh();
  }

  // The distinctness facts, split by the position of the earlier brand.

  lemma BrandNormsDistinctLow()
    ensures forall i, j :: 0 <= i < 6 && i < j < |Brands()| ==> Brands()[i].nameNorm != Brands()[j].nameNorm
  {
  }

  lemma BrandNormsDistinctLowMid()
    ensures forall i, j :: 6 <= i < 11 && i < j < |Brands()| ==> Brands()[i].nameNorm != Brands()[j].nameNorm
  {
  }

  lemma BrandNormsDistinctMid()
    ensures forall i, j :: 11 <= i < 22 && i < j < |Brands()| ==> Brands()[i].nameNorm != Brands()[j].nameNorm
  {
  }

  lemma BrandNormsDistinctHigh()
    ensures forall i, j :: 22 <= i < j < |Brands()| ==> Brands()[i].nameNorm != Brands()[j].nameNorm
  {
  }

  // ---------------------------------------------------------------------
  // Numbered series
  // ---------------------------------------------------------------------

  /** A numbered model series; `Member(s, m)` is its family number `m`. */
  datatype Series =
    | ThinkPad(letter: string)
    | HpG(prefix: string)
    | ProBook(model: nat)
    | EliteBook(model: nat)
    | Latitude
    | Inspiron
    | Vostro
    | VivoBookX
    | ZenBookUX
    | TufGamingFX
    | NitroAN
    | Swift

  function BrandOf(s: Series): string {
    match s
    case ThinkPad(_) => "lenovo"
    case HpG(_) | ProBook(_) | EliteBook(_) => "hp"
    case Latitude | Inspiron | Vostro => "dell"
    case VivoBookX | ZenBookUX | TufGamingFX => "asus"
    case NitroAN | Swift => "acer"
  }

  /** The display name of a member of `s`, up to its number. */
  function NameHead(s: Series): string {
    match s
    case ThinkPad(l) => "Lenovo ThinkPad " + l
    case HpG(p) => "HP " + p + " G"
    case ProBook(k) => "HP ProBook " + NatToString(k) + " G"
    case EliteBook(k) => "HP EliteBook " + NatToString(k) + " G"
    case Latitude => "Dell Latitude "
    case Inspiron => "Dell Inspiron "
    case Vostro => "Dell Vostro "
    case VivoBookX => "Asus VivoBook X"
    case ZenBookUX => "Asus ZenBook UX"
    case TufGamingFX => "Asus TUF Gaming FX"
    case NitroAN => "Acer Nitro 5 AN"
    case Swift => "Acer Swift "
  }

  /** The normalised name of a member of `s`, up to its number. */
  function NormHead(s: Series): string {
    match s
    case ThinkPad(l) => "lenovo thinkpad " + Lower(l)
    case HpG(p) => "hp " + Lower(p) + " g"
    case ProBook(k) => "hp probook " + NatToString(k) + " g"
    case EliteBook(k) => "hp elitebook " + NatToString(k) + " g"
    case Latitude => "dell latitude "
    case Inspiron => "dell inspiron "
    case Vostro => "dell vostro "
    case VivoBookX => "asus vivobook x"
    case ZenBookUX => "asus zenbook ux"
    case TufGamingFX => "asus tuf gaming fx"
    case NitroAN => "acer nitro 5 an"
    case Swift => "acer swift "
  }

  function Member(s: Series, m: int): FamilyDef {
    FamilyDef(BrandOf(s), NameHead(s) + IntToString(m), NormHead(s) + IntToString(m))
  }

  /** `[f(m) for m in range(a, b, step)]`. */
  function RangeOf<T>(f: int -> T, a: int, b: int, step: nat): seq<T>
    requires step > 0
    decreases b - a
  {
    if a >= b then [] else [f(a)] + RangeOf(f, a + step, b, step)
  }

  function MemberOf(s: Series): int -> FamilyDef {
    m => Member(s, m)
  }

  /** The members of `s` numbered `range(a, b, step)`, in order. */
  function Range(s: Series, a: int, b: int, step: nat): seq<FamilyDef>
    requires step > 0
  {
    RangeOf(MemberOf(s), a, b, step)
  }

  /** Python's `len(range(a, b))`. */
  function Count(a: int, b: int): nat {
    if b > a then b - a else 0
  }

  /** A non-empty range starts with the member numbered `a`. */
  lemma RangeCons(s: Series, a: int, b: int, step: nat)
    requires step > 0 && a < b
    ensures Range(s, a, b, step) == [Member(s, a)] + Range(s, a + step, b, step)
  {
  }

  lemma RangeEmpty(s: Series, a: int, b: int, step: nat)
    requires step > 0 && a >= b
    ensures Range(s, a, b, step) == []
  {
  }

  /** A unit-step range has one member per number, the `i`-th numbered `a + i`. */
  lemma RangeMembers(s: Series, a: int, b: int)
    ensures |Range(s, a, b, 1)| == Count(a, b)
    ensures forall i :: 0 <= i < |Range(s, a, b, 1)| ==> Range(s, a, b, 1)[i] == Member(s, a + i)
  {
    RangeOfMembers(MemberOf(s), a, b);
  }

  lemma RangeOfMembers<T>(f: int -> T, a: int, b: int)
    ensures |RangeOf(f, a, b, 1)| == Count(a, b)
    ensures forall i :: 0 <= i < |RangeOf(f, a, b, 1)| ==> RangeOf(f, a, b, 1)[i] == f(a + i)
  {
    RangeOfLength(f, a, b);
    forall i | 0 <= i < |RangeOf(f, a, b, 1)|
      ensures RangeOf(f, a, b, 1)[i] == f(a + i)
    {
      RangeOfAt(f, a, b, i, a + i);
    }
  }

  lemma {:induction false} RangeOfLength<T>(f: int -> T, a: int, b: int)
    ensures |RangeOf(f, a, b, 1)| == Count(a, b)
    decreases b - a
  {
    if a < b {
      RangeOfLength(f, a + 1, b);
    }
  }

  lemma {:induction false} RangeOfAt<T>(f: int -> T, a: int, b: int, i: nat, m: int)
    requires i < Count(a, b) && m == a + i
    ensures i < |RangeOf(f, a, b, 1)| && RangeOf(f, a, b, 1)[i] == f(m)
    decreases i
  {
    if i > 0 {
      RangeOfAt(f, a + 1, b, i - 1, m);
    }
  }

  function HpGSeries(prefix: string, gFrom: int, gTo: int): seq<FamilyDef> {
    Range(HpG(prefix), gFrom, gTo + 1, 1)
  }

  function LatitudeSeries(modelFrom: int, modelTo: int): seq<FamilyDef> {
    Range(Latitude, modelFrom, modelTo + 1, 1)
  }

  function ThinkPadTSeries(tFrom: int, tTo: int): seq<FamilyDef> {
    Range(ThinkPad("T"), tFrom, tTo + 1, 1)
  }

  function ThinkPadXSeries(xFrom: int, xTo: int): seq<FamilyDef> {
    Range(ThinkPad("X"), xFrom, xTo + 1, 1)
  }

  function AspireA315(suffix: string): FamilyDef {
    FamilyDef("acer", "Acer Aspire A315-" + suffix, "acer aspire a315-" + Lower(suffix))
  }

  function AspireA315Series(suffixes: seq<string>): seq<FamilyDef> {
    if |suffixes| == 0 then [] else [AspireA315(suffixes[0])] + AspireA315Series(suffixes[1..])
  }

  /** The HP G series for `gFrom..gTo` holds exactly one family per `g`, in
      order, each of brand "hp" and normalised "hp <prefix> g<g>" with the
      prefix lower-cased. */
  lemma HpGSeriesShape(prefix: string, gFrom: int, gTo: int)
    ensures |HpGSeries(prefix, gFrom, gTo)| == Count(gFrom, gTo + 1)
    ensures forall i :: 0 <= i < |HpGSeries(prefix, gFrom, gTo)| ==>
      var f := HpGSeries(prefix, gFrom, gTo)[i];
      f.brandNorm == "hp" && f.familyName == "HP " + prefix + " G" + IntToString(gFrom + i)
      && f.familyNameNorm == "hp " + Lower(prefix) + " g" + IntToString(gFrom + i)
  {
    RangeMembers(HpG(prefix), gFrom, gTo + 1);
  }

  lemma LatitudeSeriesShape(modelFrom: int, modelTo: int)
    ensures |LatitudeSeries(modelFrom, modelTo)| == Count(modelFrom, modelTo + 1)
    ensures forall i :: 0 <= i < |LatitudeSeries(modelFrom, modelTo)| ==>
      var f := LatitudeSeries(modelFrom, modelTo)[i];
      f.brandNorm == "dell" && f.familyNameNorm == "dell latitude " + IntToString(modelFrom + i)
  {
    RangeMembers(Latitude, modelFrom, modelTo + 1);
  }

  lemma ThinkPadTSeriesShape(tFrom: int, tTo: int)
    ensures |ThinkPadTSeries(tFrom, tTo)| == Count(tFrom, tTo + 1)
    ensures forall i :: 0 <= i < |ThinkPadTSeries(tFrom, tTo)| ==>
      var f := ThinkPadTSeries(tFrom, tTo)[i];
      f.brandNorm == "lenovo" && f.familyNameNorm == "lenovo thinkpad t" + IntToString(tFrom + i)
  {
    assert NormHead(ThinkPad("T")) == "lenovo thinkpad t" by { assert Lower("T") == "t"; }
    SeriesNorms(ThinkPad("T"), tFrom, tTo + 1, "lenovo thinkpad t");
  }

  lemma ThinkPadXSeriesShape(xFrom: int, xTo: int)
    ensures |ThinkPadXSeries(xFrom, xTo)| == Count(xFrom, xTo + 1)
    ensures forall i :: 0 <= i < |ThinkPadXSeries(xFrom, xTo)| ==>
      var f := ThinkPadXSeries(xFrom, xTo)[i];
      f.brandNorm == "lenovo" && f.familyNameNorm == "lenovo thinkpad x" + IntToString(xFrom + i)
  {
    assert NormHead(ThinkPad("X")) == "lenovo thinkpad x" by { assert Lower("X") == "x"; }
    SeriesNorms(ThinkPad("X"), xFrom, xTo + 1, "lenovo thinkpad x");
  }

  /** A unit-step range's members carry the series' brand and its normalised head followed by their number. */
  lemma SeriesNorms(s: Series, a: int, b: int, head: string)
    requires NormHead(s) == head
    ensures |Range(s, a, b, 1)| == Count(a, b)
    ensures forall i :: 0 <= i < |Range(s, a, b, 1)| ==>
      Range(s, a, b, 1)[i].brandNorm == BrandOf(s) && Range(s, a, b, 1)[i].familyNameNorm == head + IntToString(a + i)
  {
    RangeMembers(s, a, b);
  }

  /** One Aspire A315 family per suffix, in order, its norm the lower-cased suffix. */
  lemma {:induction false} AspireA315SeriesShape(suffixes: seq<string>)
    ensures |AspireA315Series(suffixes)| == |suffixes|
    ensures forall i :: 0 <= i < |suffixes| ==>
      var f := AspireA315Series(suffixes)[i];
      f.brandNorm == "acer" && f.familyNameNorm == "acer aspire a315-" + Lower(suffixes[i])
  {
    if |suffixes| > 0 {
      AspireA315SeriesShape(suffixes[1..]);
    }
  }

  // ---------------------------------------------------------------------
  // Families
  // ---------------------------------------------------------------------

  function AppleFamilies(): seq<FamilyDef> {
    [ FamilyDef("apple", "Apple MacBook Air 13", "apple macbook air 13"),
      FamilyDef("apple", "Apple MacBook Air 15", "apple macbook air 15"),
      FamilyDef("apple", "Apple MacBook Pro 13", "apple macbook pro 13"),
      FamilyDef("apple", "Apple MacBook Pro 14", "apple macbook pro 14"),
      FamilyDef("apple", "Apple MacBook Pro 16", "apple macbook pro 16") ]
  }

  function A315Suffixes(): seq<string> {
    ["21", "31", "34", "41", "42", "43", "44", "51", "54", "56", "58"]
  }

  /** One generation `g` of HP's business line: four appends in the order
      ProBook 450, ProBook 440, EliteBook 840, EliteBook 850. */
  function HpRound(out: seq<FamilyDef>, g: int): seq<FamilyDef> {
    out + [Member(ProBook(450), g)] + [Member(ProBook(440), g)]
    + [Member(EliteBook(840), g)] + [Member(EliteBook(850), g)]
  }

  /** `out` followed by the HP business rounds `range(a, b)`. */
  function HpRounds(out: seq<FamilyDef>, a: int, b: int): seq<FamilyDef>
    decreases b - a
  {
    if a >= b then out else HpRounds(HpRound(out, a), a + 1, b)
  }

  // Bounds of the generated series: inclusive `From`/`To` pairs for the
  // generators, Python's `range(From, Until[, Step])` for the loops.
  const TFrom := 410
  const TTo := 490
  const XFrom := 200
  const XTo := 395
  const HpGFrom := 1
  const HpGTo := 10
  const Latitude3From := 3300
  const Latitude3To := 3590
  const Latitude5From := 5400
  const Latitude5To := 5590
  const Latitude7From := 7400
  const Latitude7To := 7590
  const EFrom := 380
  const EUntil := 590
  const LFrom := 430
  const LUntil := 595
  const PFrom := 40
  const PUntil := 60
  const HpBusinessFrom := 1
  const HpBusinessUntil := 11
  const DellFrom := 3000
  const DellUntil := 7010
  const DellStep: nat := 10
  const VivoBookFrom := 510
  const VivoBookUntil := 560
  const ZenBookFrom := 301
  const ZenBookUntil := 391
  const TufFrom := 504
  const TufUntil := 519
  const NitroFrom := 515
  const NitroUntil := 518
  const SwiftFrom := 313
  const SwiftUntil := 317

  // Each brand section of `families()`, as what it makes of the list `out`
  // built so far.

  function WithThinkPads(out: seq<FamilyDef>): seq<FamilyDef> {
    out + ThinkPadTSeries(TFrom, TTo) + ThinkPadXSeries(XFrom, XTo)
    + Range(ThinkPad("E"), EFrom, EUntil, 1) + Range(ThinkPad("L"), LFrom, LUntil, 1) + Range(ThinkPad("P"), PFrom, PUntil, 1)
  }

  function WithHps(out: seq<FamilyDef>): seq<FamilyDef> {
    var series := out + HpGSeries("250", HpGFrom, HpGTo) + HpGSeries("255", HpGFrom, HpGTo)
      + HpGSeries("245", HpGFrom, HpGTo) + HpGSeries("240", HpGFrom, HpGTo);
    HpRounds(series, HpBusinessFrom, HpBusinessUntil)
  }

  function WithDells(out: seq<FamilyDef>): seq<FamilyDef> {
    out + LatitudeSeries(Latitude3From, Latitude3To) + LatitudeSeries(Latitude5From, Latitude5To)
    + LatitudeSeries(Latitude7From, Latitude7To)
    + Range(Inspiron, DellFrom, DellUntil, DellStep) + Range(Vostro, DellFrom, DellUntil, DellStep)
  }

  function WithAsuses(out: seq<FamilyDef>): seq<FamilyDef> {
    out + Range(VivoBookX, VivoBookFrom, VivoBookUntil, 1) + Range(ZenBookUX, ZenBookFrom, ZenBookUntil, 1)
    + Range(TufGamingFX, TufFrom, TufUntil, 1)
  }

  function WithAcers(out: seq<FamilyDef>): seq<FamilyDef> {
    out + AspireA315Series(A315Suffixes()) + Range(NitroAN, NitroFrom, NitroUntil, 1) + Range(Swift, SwiftFrom, SwiftUntil, 1)
  }

  /** The whole family list, brand section by brand section. */
  function FamilyList(): seq<FamilyDef> {
    WithAcers(WithAsuses(WithDells(WithHps(WithThinkPads([]))))) + AppleFamilies()
  }

  /** Appends the members of `s` numbered `range(a, b, step)` to `out`. */
  method AppendRange(out0: seq<FamilyDef>, s: Series, a: int, b: int, step: nat) returns (out: seq<FamilyDef>)
    requires step > 0
    ensures out == out0 + Range(s, a, b, step)
  {
    out := out0;
    var m := a;
    while m < b
      invariant out + Range(s, m, b, step) == out0 + Range(s, a, b, step)
      decreases b - m
    {
      RangeStep(out, s, m, b, step);
      out := out + [Member(s, m)];
      m := m + step;
    }
    RangeDone(out, s, m, b, step);
  }

  lemma RangeStep(out: seq<FamilyDef>, s: Series, m: int, b: int, step: nat)
    requires step > 0 && m < b
    ensures (out + [Member(s, m)]) + Range(s, m + step, b, step) == out + Range(s, m, b, step)
  {
    RangeCons(s, m, b, step);
  }

  lemma RangeDone(out: seq<FamilyDef>, s: Series, m: int, b: int, step: nat)
    requires step > 0 && m >= b
    ensures out + Range(s, m, b, step) == out
  {
    RangeEmpty(s, m, b, step);
  }

  method Families() returns (out: seq<FamilyDef>)
    ensures out == FamilyList()
  {
    out := [];
    out := AppendThinkPads(out);
    out := AppendHps(out);
    out := AppendDells(out);
    out := AppendAsuses(out);
    out := AppendAcers(out);
    out := out + AppleFamilies();
  }

  method AppendThinkPads(out0: seq<FamilyDef>) returns (out: seq<FamilyDef>)
    ensures out == WithThinkPads(out0)
  {
    out := out0 + ThinkPadTSeries(TFrom, TTo);
    out := out + ThinkPadXSeries(XFrom, XTo);
    out := AppendRange(out, ThinkPad("E"), EFrom, EUntil, 1);
    out := AppendRange(out, ThinkPad("L"), LFrom, LUntil, 1);
    out := AppendRange(out, ThinkPad("P"), PFrom, PUntil, 1);
  }

  method AppendHps(out0: seq<FamilyDef>) returns (out: seq<FamilyDef>)
    ensures out == WithHps(out0)
  {
    out := out0 + HpGSeries("250", HpGFrom, HpGTo);
    out := out + HpGSeries("255", HpGFrom, HpGTo);
    out := out + HpGSeries("245", HpGFrom, HpGTo);
    out := out + HpGSeries("240", HpGFrom, HpGTo);
    out := AppendHpRounds(out);
  }

  /** HP's business line, generation by generation. */
  method AppendHpRounds(out0: seq<FamilyDef>) returns (out: seq<FamilyDef>)
    ensures out == HpRounds(out0, HpBusinessFrom, HpBusinessUntil)
  {
    out := out0;
    for g := HpBusinessFrom to HpBusinessUntil
      invariant HpRounds(out, g, HpBusinessUntil) == HpRounds(out0, HpBusinessFrom, HpBusinessUntil)
    {
      out := out + [Member(ProBook(450), g)];
      out := out + [Member(ProBook(440), g)];
      out := out + [Member(EliteBook(840), g)];
      out := out + [Member(EliteBook(850), g)];
    }
  }

  method AppendDells(out0: seq<FamilyDef>) returns (out: seq<FamilyDef>)
    ensures out == WithDells(out0)
  {
    out := out0 + LatitudeSeries(Latitude3From, Latitude3To);
    out := out + LatitudeSeries(Latitude5From, Latitude5To);
    out := out + LatitudeSeries(Latitude7From, Latitude7To);
    out := AppendRange(out, Inspiron, DellFrom, DellUntil, DellStep);
    out := AppendRange(out, Vostro, DellFrom, DellUntil, DellStep);
  }

  method AppendAsuses(out0: seq<FamilyDef>) returns (out: seq<FamilyDef>)
    ensures out == WithAsuses(out0)
  {
    out := AppendRange(out0, VivoBookX, VivoBookFrom, VivoBookUntil, 1);
    out := AppendRange(out, ZenBookUX, ZenBookFrom, ZenBookUntil, 1);
    out := AppendRange(out, TufGamingFX, TufFrom, TufUntil, 1);
  }

  method AppendAcers(out0: seq<FamilyDef>) returns (out: seq<FamilyDef>)
    ensures out == WithAcers(out0)
  {
    out := out0 + AspireA315Series(A315Suffixes());
    out := AppendRange(out, NitroAN, NitroFrom, NitroUntil, 1);
    out := AppendRange(out, Swift, SwiftFrom, SwiftUntil, 1);
  }

  // ---------------------------------------------------------------------
  // Properties of the family list
  // ---------------------------------------------------------------------

  /** The brands the generated families belong to. */
  function FamilyBrands(): set<string> {
    {"lenovo", "hp", "dell", "asus", "acer", "apple"}
  }

  /** A family of one of `FamilyBrands` whose normalised name is its
      lower-cased name. */
  predicate WellFormedFamily(f: FamilyDef) {
    f.brandNorm in FamilyBrands() && f.familyNameNorm == Lower(f.familyName)
  }

  predicate AllWellFormed(fs: seq<FamilyDef>) {
    forall f :: f in fs ==> WellFormedFamily(f)
  }

  lemma AllWellFormedAppend(a: seq<FamilyDef>, b: seq<FamilyDef>)
    requires AllWellFormed(a) && AllWellFormed(b)
    ensures AllWellFormed(a + b)
  {
  }

  lemma LowerIntToString(m: int)
    ensures Lower(IntToString(m)) == IntToString(m)
  {
    if m < 0 {
      LowerAppend("-", NatToString(-m));
      LowerDigits(NatToString(-m));
    } else {
      LowerDigits(NatToString(m));
    }
  }

  lemma ThinkPadHeadLower(l: string)
    ensures NormHead(ThinkPad(l)) == Lower(NameHead(ThinkPad(l)))
  {
    LowerAppend("Lenovo ThinkPad ", l);
    assert Lower("Lenovo ThinkPad ") == "lenovo thinkpad ";
  }

  lemma HpGHeadLower(p: string)
    ensures NormHead(HpG(p)) == Lower(NameHead(HpG(p)))
  {
    LowerAppend("HP " + p, " G");
    LowerAppend("HP ", p);
    assert Lower(" G") == " g";
    assert Lower("HP ") == "hp ";
  }

  lemma ProBookHeadLower(k: nat)
    ensures NormHead(ProBook(k)) == Lower(NameHead(ProBook(k)))
  {
    LowerDigits(NatToString(k));
    LowerAppend("HP ProBook " + NatToString(k), " G");
    LowerAppend("HP ProBook ", NatToString(k));
    assert Lower(" G") == " g";
    assert Lower("HP ProBook ") == "hp probook ";
  }

  lemma EliteBookHeadLower(k: nat)
    ensures NormHead(EliteBook(k)) == Lower(NameHead(EliteBook(k)))
  {
    LowerDigits(NatToString(k));
    LowerAppend("HP EliteBook " + NatToString(k), " G");
    LowerAppend("HP EliteBook ", NatToString(k));
    assert Lower(" G") == " g";
    assert Lower("HP EliteBook ") == "hp elitebook ";
  }

  lemma DellHeadsLower()
    ensures NormHead(Latitude) == Lower(NameHead(Latitude))
    ensures NormHead(Inspiron) == Lower(NameHead(Inspiron))
    ensures NormHead(Vostro) == Lower(NameHead(Vostro))
  {
  }

  lemma VivoBookHeadLower() ensures NormHead(VivoBookX) == Lower(NameHead(VivoBookX)) { }
  lemma ZenBookHeadLower() ensures NormHead(ZenBookUX) == Lower(NameHead(ZenBookUX)) { }
  lemma TufHeadLower() ensures NormHead(TufGamingFX) == Lower(NameHead(TufGamingFX)) { }

  lemma AcerHeadsLower()
    ensures NormHead(NitroAN) == Lower(NameHead(NitroAN))
    ensures NormHead(Swift) == Lower(NameHead(Swift))
  {
  }

  // Each brand a family is generated for, found in the brand list.

  lemma LenovoListed() ensures IsBrandNorm("lenovo") { assert Brands()[0].nameNorm == "lenovo"; }
  lemma HpListed() ensures IsBrandNorm("hp") { assert Brands()[1].nameNorm == "hp"; }
  lemma DellListed() ensures IsBrandNorm("dell") { assert Brands()[2].nameNorm == "dell"; }
  lemma AsusListed() ensures IsBrandNorm("asus") { assert Brands()[3].nameNorm == "asus"; }
  lemma AcerListed() ensures IsBrandNorm("acer") { assert Brands()[4].nameNorm == "acer"; }
  lemma AppleListed() ensures IsBrandNorm("apple") { assert Brands()[5].nameNorm == "apple"; }
  lemma MsiListed() ensures IsBrandNorm("msi") { assert Brands()[6].nameNorm == "msi"; }
  lemma HuaweiListed() ensures IsBrandNorm("huawei") { assert Brands()[7].nameNorm == "huawei"; }
  lemma HonorListed() ensures IsBrandNorm("honor") { assert Brands()[8].nameNorm == "honor"; }
  lemma XiaomiListed() ensures IsBrandNorm("xiaomi") { assert Brands()[9].nameNorm == "xiaomi"; }
  lemma SamsungListed() ensures IsBrandNorm("samsung") { assert Brands()[10].nameNorm == "samsung"; }

  /** Every brand a family is generated for is a listed brand. */
  lemma FamilyBrandListed(n: string)
    requires n in FamilyBrands()
    ensures IsBrandNorm(n)
  {
    LenovoListed(); HpListed(); DellListed(); AsusListed(); AcerListed(); AppleListed();
  }

  lemma MemberWellFormed(s: Series, m: int)
    ensures WellFormedFamily(Member(s, m))
  {
    LowerIntToString(m);
    LowerAppend(NameHead(s), IntToString(m));
    match s
    case ThinkPad(l) => ThinkPadHeadLower(l);
    case HpG(p) => HpGHeadLower(p);
    case ProBook(k) => ProBookHeadLower(k);
    case EliteBook(k) => EliteBookHeadLower(k);
    case Latitude => DellHeadsLower();
    case Inspiron => DellHeadsLower();
    case Vostro => DellHeadsLower();
    case VivoBookX => VivoBookHeadLower();
    case ZenBookUX => ZenBookHeadLower();
    case TufGamingFX => TufHeadLower();
    case NitroAN => AcerHeadsLower();
    case Swift => AcerHeadsLower();
  }

  lemma {:induction false} RangeWellFormed(s: Series, a: int, b: int, step: nat)
    requires step > 0
    ensures AllWellFormed(Range(s, a, b, step))
    decreases b - a
  {
    if a < b {
      RangeWellFormed(s, a + step, b, step);
      RangeWellFormedStep(s, a, b, step);
    } else {
      RangeEmpty(s, a, b, step);
    }
  }

  lemma RangeWellFormedStep(s: Series, a: int, b: int, step: nat)
    requires step > 0 && a < b && AllWellFormed(Range(s, a + step, b, step))
    ensures AllWellFormed(Range(s, a, b, step))
  {
    MemberWellFormed(s, a);
    RangeCons(s, a, b, step);
    AllWellFormedAppend([Member(s, a)], Range(s, a + step, b, step));
  }

  lemma HpRoundWellFormed(out: seq<FamilyDef>, g: int)
    requires AllWellFormed(out)
    ensures AllWellFormed(HpRound(out, g))
  {
    var out1 := out + [Member(ProBook(450), g)];
    AppendMemberWellFormed(out, ProBook(450), g);
    var out2 := out1 + [Member(ProBook(440), g)];
    AppendMemberWellFormed(out1, ProBook(440), g);
    var out3 := out2 + [Member(EliteBook(840), g)];
    AppendMemberWellFormed(out2, EliteBook(840), g);
    AppendMemberWellFormed(out3, EliteBook(850), g);
  }

  lemma AppendMemberWellFormed(out: seq<FamilyDef>, s: Series, m: int)
    requires AllWellFormed(out)
    ensures AllWellFormed(out + [Member(s, m)])
  {
    MemberWellFormed(s, m);
  }

  lemma {:induction false} HpRoundsWellFormed(out: seq<FamilyDef>, a: int, b: int)
    requires AllWellFormed(out)
    ensures AllWellFormed(HpRounds(out, a, b))
    decreases b - a
  {
    if a < b {
      HpRoundWellFormed(out, a);
      HpRoundsWellFormed(HpRound(out, a), a + 1, b);
    }
  }

  lemma {:induction false} AspireA315WellFormed(suffixes: seq<string>)
    ensures AllWellFormed(AspireA315Series(suffixes))
  {
    if |suffixes| > 0 {
      LowerAppend("Acer Aspire A315-", suffixes[0]);
      assert Lower("Acer Aspire A315-") == "acer aspire a315-";
      AspireA315WellFormed(suffixes[1..]);
    }
  }

  lemma Air13Lower() ensures Lower("Apple MacBook Air 13") == "apple macbook air 13" { }
  lemma Air15Lower() ensures Lower("Apple MacBook Air 15") == "apple macbook air 15" { }
  lemma Pro13Lower() ensures Lower("Apple MacBook Pro 13") == "apple macbook pro 13" { }
  lemma Pro14Lower() ensures Lower("Apple MacBook Pro 14") == "apple macbook pro 14" { }
  lemma Pro16Lower() ensures Lower("Apple MacBook Pro 16") == "apple macbook pro 16" { }

  lemma AppleWellFormed()
    ensures AllWellFormed(AppleFamilies())
  {
    Air13Lower();
    Air15Lower();
    Pro13Lower();
    Pro14Lower();
    Pro16Lower();
  }

  lemma ThinkPadsWellFormed(out: seq<FamilyDef>)
    requires AllWellFormed(out)
    ensures AllWellFormed(WithThinkPads(out))
  {
    var o1 := out + ThinkPadTSeries(TFrom, TTo);
    ExtendWellFormed(out, ThinkPad("T"), TFrom, TTo + 1, 1);
    var o2 := o1 + ThinkPadXSeries(XFrom, XTo);
    ExtendWellFormed(o1, ThinkPad("X"), XFrom, XTo + 1, 1);
    var o3 := o2 + Range(ThinkPad("E"), EFrom, EUntil, 1);
    ExtendWellFormed(o2, ThinkPad("E"), EFrom, EUntil, 1);
    var o4 := o3 + Range(ThinkPad("L"), LFrom, LUntil, 1);
    ExtendWellFormed(o3, ThinkPad("L"), LFrom, LUntil, 1);
    ExtendWellFormed(o4, ThinkPad("P"), PFrom, PUntil, 1);
  }

  lemma ExtendWellFormed(o: seq<FamilyDef>, s: Series, a: int, b: int, step: nat)
    requires step > 0 && AllWellFormed(o)
    ensures AllWellFormed(o + Range(s, a, b, step))
  {
    RangeWellFormed(s, a, b, step);
    AllWellFormedAppend(o, Range(s, a, b, step));
  }

  lemma HpsWellFormed(out: seq<FamilyDef>)
    requires AllWellFormed(out)
    ensures AllWellFormed(WithHps(out))
  {
    RangeWellFormed(HpG("250"), HpGFrom, HpGTo + 1, 1);
    RangeWellFormed(HpG("255"), HpGFrom, HpGTo + 1, 1);
    RangeWellFormed(HpG("245"), HpGFrom, HpGTo + 1, 1);
    RangeWellFormed(HpG("240"), HpGFrom, HpGTo + 1, 1);
    var series := out + HpGSeries("250", HpGFrom, HpGTo) + HpGSeries("255", HpGFrom, HpGTo)
      + HpGSeries("245", HpGFrom, HpGTo) + HpGSeries("240", HpGFrom, HpGTo);
    HpRoundsWellFormed(series, HpBusinessFrom, HpBusinessUntil);
  }

  lemma DellsWellFormed(out: seq<FamilyDef>)
    requires AllWellFormed(out)
    ensures AllWellFormed(WithDells(out))
  {
    LatitudesWellFormed(out, Latitude3From, Latitude3To, Latitude5From, Latitude5To, Latitude7From, Latitude7To);
    var o3 := out + LatitudeSeries(Latitude3From, Latitude3To) + LatitudeSeries(Latitude5From, Latitude5To)
      + LatitudeSeries(Latitude7From, Latitude7To);
    DellLinesWellFormed(o3, DellFrom, DellUntil, DellStep);
  }

  lemma LatitudesWellFormed(out: seq<FamilyDef>, a1: int, b1: int, a2: int, b2: int, a3: int, b3: int)
    requires AllWellFormed(out)
    ensures AllWellFormed(out + LatitudeSeries(a1, b1) + LatitudeSeries(a2, b2) + LatitudeSeries(a3, b3))
  {
    var o1 := out + LatitudeSeries(a1, b1);
    ExtendWellFormed(out, Latitude, a1, b1 + 1, 1);
    var o2 := o1 + LatitudeSeries(a2, b2);
    ExtendWellFormed(o1, Latitude, a2, b2 + 1, 1);
    ExtendWellFormed(o2, Latitude, a3, b3 + 1, 1);
  }

  lemma DellLinesWellFormed(o: seq<FamilyDef>, a: int, b: int, step: nat)
    requires step > 0 && AllWellFormed(o)
    ensures AllWellFormed(o + Range(Inspiron, a, b, step) + Range(Vostro, a, b, step))
  {
    ExtendWellFormed(o, Inspiron, a, b, step);
    ExtendWellFormed(o + Range(Inspiron, a, b, step), Vostro, a, b, step);
  }

  lemma AsusesWellFormed(out: seq<FamilyDef>)
    requires AllWellFormed(out)
    ensures AllWellFormed(WithAsuses(out))
  {
    RangeWellFormed(VivoBookX, VivoBookFrom, VivoBookUntil, 1);
    RangeWellFormed(ZenBookUX, ZenBookFrom, ZenBookUntil, 1);
    RangeWellFormed(TufGamingFX, TufFrom, TufUntil, 1);
  }

  lemma AcersWellFormed(out: seq<FamilyDef>)
    requires AllWellFormed(out)
    ensures AllWellFormed(WithAcers(out))
  {
    AspireA315WellFormed(A315Suffixes());
    RangeWellFormed(NitroAN, NitroFrom, NitroUntil, 1);
    RangeWellFormed(Swift, SwiftFrom, SwiftUntil, 1);
  }

  lemma LenovoHpWellFormed()
    ensures AllWellFormed(WithHps(WithThinkPads([])))
  {
    ThinkPadsWellFormed([]);
    HpsWellFormed(WithThinkPads([]));
  }

  lemma FamiliesWellFormed()
    ensures AllWellFormed(FamilyList())
  {
    LenovoHpWellFormed();
    var out := WithHps(WithThinkPads([]));
    DellsWellFormed(out);
    out := WithDells(out);
    AsusesWellFormed(out);
    out := WithAsuses(out);
    AcersWellFormed(out);
    out := WithAcers(out);
    AppleWellFormed();
    AllWellFormedAppend(out, AppleFamilies());
  }

  /** Every generated family belongs to a listed brand, and its normalised
      name is its display name lower-cased. */
  lemma FamiliesListedAndLower()
    ensures ListedAndLower(FamilyList())
  {
    FamiliesWellFormed();
    WellFormedListed(FamilyList());
  }

  /** Every family in `fs` belongs to a listed brand, and its normalised
      name is its display name lower-cased. */
  predicate ListedAndLower(fs: seq<FamilyDef>) {
    forall f :: f in fs ==> IsBrandNorm(f.brandNorm) && f.familyNameNorm == Lower(f.familyName)
  }

  lemma WellFormedListed(fs: seq<FamilyDef>)
    requires AllWellFormed(fs)
    ensures ListedAndLower(fs)
  {
    forall f | f in fs
      ensures IsBrandNorm(f.brandNorm)
    {
      FamilyBrandListed(f.brandNorm);
    }
  }

  // ---------------------------------------------------------------------
  // Variants
  // ---------------------------------------------------------------------

  /** The family the ThinkPad T14 variants belong to. */
  const T14Norm := "lenovo thinkpad t14"

  function Variants(): seq<VariantDef> {
    [ VariantDef(T14Norm, "Lenovo ThinkPad T14 Gen 1", "lenovo thinkpad t14 gen 1", gen := Some(1), year := Some(2020)),
      VariantDef(T14Norm, "Lenovo ThinkPad T14 Gen 2", "lenovo thinkpad t14 gen 2", gen := Some(2), year := Some(2021)),
      VariantDef(T14Norm, "Lenovo ThinkPad T14 Gen 3", "lenovo thinkpad t14 gen 3", gen := Some(3), year := Some(2022)),
      VariantDef(T14Norm, "Lenovo ThinkPad T14 Gen 4", "lenovo thinkpad t14 gen 4", gen := Some(4), year := Some(2023)),
      VariantDef("apple macbook air 13", "Apple MacBook Air 13 M1", "apple macbook air 13 m1", year := Some(2020)),
      VariantDef("apple macbook air 13", "Apple MacBook Air 13 M2", "apple macbook air 13 m2", year := Some(2022)),
      VariantDef("apple macbook air 13", "Apple MacBook Air 13 M3", "apple macbook air 13 m3", year := Some(2024)) ]
  }

  /** The T14 variants carry generations 1 to 4 (years 2020 to 2023); the
      Apple variants give only a year, their generation left at its default. */
  lemma VariantsShape()
    ensures |Variants()| == 7
    ensures forall i :: 0 <= i < 4 ==>
      Variants()[i].familyNameNorm == T14Norm && Variants()[i].gen == Some(i + 1) && Variants()[i].year == Some(2020 + i)
    ensures forall i :: 4 <= i < 7 ==>
      Variants()[i].familyNameNorm == AppleFamilies()[0].familyNameNorm && Variants()[i].gen == None && Variants()[i].year.Some?
  {
  }

  /** No generated family is normalised as `T14Norm`: only a ThinkPad
      numbered 14 would be. */
  lemma MemberNotT14(s: Series, m: int)
    requires s.ThinkPad? ==> |s.letter| == 1 && (Lower(s.letter) != "t" || m != 14)
    ensures Member(s, m).familyNameNorm != T14Norm
  {
    if s.ThinkPad? {
      ThinkPadNotT14(s.letter, m);
    } else {
      assert NormHead(s)[0] != T14Norm[0];
    }
  }

  lemma ThinkPadNotT14(l: string, m: int)
    requires |l| == 1 && (Lower(l) != "t" || m != 14)
    ensures Member(ThinkPad(l), m).familyNameNorm != T14Norm
  {
    assert Member(ThinkPad(l), m).familyNameNorm == "lenovo thinkpad " + Lower(l) + IntToString(m);
    if Lower(l) != "t" {
      OtherLetterNotT14(Lower(l), IntToString(m));
    } else {
      OtherNumberNotT14(m);
    }
  }

  lemma OtherLetterNotT14(c: string, n: string)
    requires |c| == 1 && c != "t"
    ensures "lenovo thinkpad " + c + n != T14Norm
  {
    var norm := "lenovo thinkpad " + c + n;
    assert c == [c[0]];
    assert norm[16] == c[0];
  }

  lemma OtherNumberNotT14(m: int)
    requires m != 14
    ensures "lenovo thinkpad " + "t" + IntToString(m) != T14Norm
  {
    var n := IntToString(m);
    NumberNot14(m);
    SuffixDiffers("lenovo thinkpad t", n, "14");
    assert "lenovo thinkpad " + "t" + n == "lenovo thinkpad t" + n;
    assert T14Norm == "lenovo thinkpad t" + "14";
  }

  lemma NumberNot14(m: int)
    requires m != 14
    ensures IntToString(m) != "14"
  {
    if m >= 0 {
      NatToStringValue(m);
      assert DigitsValue("14") == 14;
    }
  }

  lemma SuffixDiffers(p: string, a: string, b: string)
    requires a != b
    ensures p + a != p + b
  {
    assert (p + a)[|p|..] == a;
    assert (p + b)[|p|..] == b;
  }

  /** No family in `fs` is normalised as `T14Norm`. */
  predicate LacksT14(fs: seq<FamilyDef>) {
    forall f :: f in fs ==> f.familyNameNorm != T14Norm
  }

  lemma LacksT14Append(a: seq<FamilyDef>, b: seq<FamilyDef>)
    requires LacksT14(a) && LacksT14(b)
    ensures LacksT14(a + b)
  {
  }

  /** No member numbered in `[a, b)` has the normalised name `norm`. */
  predicate MembersAvoid(s: Series, a: int, b: int, norm: string) {
    forall m :: a <= m < b ==> Member(s, m).familyNameNorm != norm
  }

  lemma {:induction false} RangeAvoids(s: Series, a: int, b: int, step: nat, norm: string)
    requires step > 0 && MembersAvoid(s, a, b, norm)
    ensures forall f :: f in Range(s, a, b, step) ==> f.familyNameNorm != norm
    decreases b - a
  {
    if a < b {
      MembersAvoidTail(s, a, b, step, norm);
      RangeAvoids(s, a + step, b, step, norm);
      RangeAvoidsStep(s, a, b, step, norm);
    } else {
      RangeEmpty(s, a, b, step);
    }
  }

  lemma MembersAvoidTail(s: Series, a: int, b: int, step: nat, norm: string)
    requires step > 0 && a < b && MembersAvoid(s, a, b, norm)
    ensures MembersAvoid(s, a + step, b, norm) && Member(s, a).familyNameNorm != norm
  {
  }

  lemma RangeAvoidsStep(s: Series, a: int, b: int, step: nat, norm: string)
    requires step > 0 && a < b
    requires Member(s, a).familyNameNorm != norm
    requires forall f :: f in Range(s, a + step, b, step) ==> f.familyNameNorm != norm
    ensures forall f :: f in Range(s, a, b, step) ==> f.familyNameNorm != norm
  {
    RangeCons(s, a, b, step);
    LacksAppend([Member(s, a)], Range(s, a + step, b, step), norm);
  }

  lemma LacksAppend(a: seq<FamilyDef>, b: seq<FamilyDef>, norm: string)
    requires forall f :: f in a ==> f.familyNameNorm != norm
    requires forall f :: f in b ==> f.familyNameNorm != norm
    ensures forall f :: f in a + b ==> f.familyNameNorm != norm
  {
  }

  lemma SeriesAvoidsT14(s: Series, a: int, b: int, step: nat)
    requires step > 0
    requires s.ThinkPad? ==> |s.letter| == 1 && (Lower(s.letter) != "t" || a > 14)
    ensures LacksT14(Range(s, a, b, step))
  {
    forall m | a <= m < b
      ensures Member(s, m).familyNameNorm != T14Norm
    {
      MemberNotT14(s, m);
    }
    RangeAvoids(s, a, b, step, T14Norm);
  }

  lemma {:induction false} HpRoundsAvoidT14(out: seq<FamilyDef>, a: int, b: int)
    requires LacksT14(out)
    ensures LacksT14(HpRounds(out, a, b))
    decreases b - a
  {
    if a < b {
      MemberNotT14(ProBook(450), a);
      MemberNotT14(ProBook(440), a);
      MemberNotT14(EliteBook(840), a);
      MemberNotT14(EliteBook(850), a);
      HpRoundsAvoidT14(HpRound(out, a), a + 1, b);
    }
  }

  lemma {:induction false} AspireA315AvoidsT14(suffixes: seq<string>)
    ensures LacksT14(AspireA315Series(suffixes))
  {
    if |suffixes| > 0 {
      assert AspireA315(suffixes[0]).familyNameNorm[0] != T14Norm[0];
      AspireA315AvoidsT14(suffixes[1..]);
    }
  }

  lemma ThinkPadLetters()
    ensures Lower("T") == "t" && Lower("X") == "x" && Lower("E") == "e" && Lower("L") == "l" && Lower("P") == "p"
  {
  }

  lemma ThinkPadsAvoidT14(out: seq<FamilyDef>)
    requires LacksT14(out)
    ensures LacksT14(WithThinkPads(out))
  {
    ThinkPadLetters();
    var o1 := out + ThinkPadTSeries(TFrom, TTo);
    ExtendLacksT14(out, ThinkPad("T"), TFrom, TTo + 1, 1);
    var o2 := o1 + ThinkPadXSeries(XFrom, XTo);
    ExtendLacksT14(o1, ThinkPad("X"), XFrom, XTo + 1, 1);
    var o3 := o2 + Range(ThinkPad("E"), EFrom, EUntil, 1);
    ExtendLacksT14(o2, ThinkPad("E"), EFrom, EUntil, 1);
    var o4 := o3 + Range(ThinkPad("L"), LFrom, LUntil, 1);
    ExtendLacksT14(o3, ThinkPad("L"), LFrom, LUntil, 1);
    ExtendLacksT14(o4, ThinkPad("P"), PFrom, PUntil, 1);
  }

  lemma HpsAvoidT14(out: seq<FamilyDef>)
    requires LacksT14(out)
    ensures LacksT14(WithHps(out))
  {
    SeriesAvoidsT14(HpG("250"), HpGFrom, HpGTo + 1, 1);
    SeriesAvoidsT14(HpG("255"), HpGFrom, HpGTo + 1, 1);
    SeriesAvoidsT14(HpG("245"), HpGFrom, HpGTo + 1, 1);
    SeriesAvoidsT14(HpG("240"), HpGFrom, HpGTo + 1, 1);
    var series := out + HpGSeries("250", HpGFrom, HpGTo) + HpGSeries("255", HpGFrom, HpGTo)
      + HpGSeries("245", HpGFrom, HpGTo) + HpGSeries("240", HpGFrom, HpGTo);
    HpRoundsAvoidT14(series, HpBusinessFrom, HpBusinessUntil);
  }

  lemma DellsAvoidT14(out: seq<FamilyDef>)
    requires LacksT14(out)
    ensures LacksT14(WithDells(out))
  {
    LatitudesAvoidT14(out, Latitude3From, Latitude3To, Latitude5From, Latitude5To, Latitude7From, Latitude7To);
    var o3 := out + LatitudeSeries(Latitude3From, Latitude3To) + LatitudeSeries(Latitude5From, Latitude5To)
      + LatitudeSeries(Latitude7From, Latitude7To);
    DellLinesAvoidT14(o3, DellFrom, DellUntil, DellStep);
  }

  lemma LatitudesAvoidT14(out: seq<FamilyDef>, a1: int, b1: int, a2: int, b2: int, a3: int, b3: int)
    requires LacksT14(out)
    ensures LacksT14(out + LatitudeSeries(a1, b1) + LatitudeSeries(a2, b2) + LatitudeSeries(a3, b3))
  {
    var o1 := out + LatitudeSeries(a1, b1);
    ExtendLacksT14(out, Latitude, a1, b1 + 1, 1);
    var o2 := o1 + LatitudeSeries(a2, b2);
    ExtendLacksT14(o1, Latitude, a2, b2 + 1, 1);
    ExtendLacksT14(o2, Latitude, a3, b3 + 1, 1);
  }

  lemma DellLinesAvoidT14(o: seq<FamilyDef>, a: int, b: int, step: nat)
    requires step > 0 && LacksT14(o)
    ensures LacksT14(o + Range(Inspiron, a, b, step) + Range(Vostro, a, b, step))
  {
    ExtendLacksT14(o, Inspiron, a, b, step);
    ExtendLacksT14(o + Range(Inspiron, a, b, step), Vostro, a, b, step);
  }

  lemma ExtendLacksT14(o: seq<FamilyDef>, s: Series, a: int, b: int, step: nat)
    requires step > 0 && LacksT14(o)
    requires s.ThinkPad? ==> |s.letter| == 1 && (Lower(s.letter) != "t" || a > 14)
    ensures LacksT14(o + Range(s, a, b, step))
  {
    SeriesAvoidsT14(s, a, b, step);
    LacksT14Append(o, Range(s, a, b, step));
  }

  lemma AsusesAvoidT14(out: seq<FamilyDef>)
    requires LacksT14(out)
    ensures LacksT14(WithAsuses(out))
  {
    SeriesAvoidsT14(VivoBookX, VivoBookFrom, VivoBookUntil, 1);
    SeriesAvoidsT14(ZenBookUX, ZenBookFrom, ZenBookUntil, 1);
    SeriesAvoidsT14(TufGamingFX, TufFrom, TufUntil, 1);
  }

  lemma AcersAvoidT14(out: seq<FamilyDef>)
    requires LacksT14(out)
    ensures LacksT14(WithAcers(out))
  {
    AspireA315AvoidsT14(A315Suffixes());
    SeriesAvoidsT14(NitroAN, NitroFrom, NitroUntil, 1);
    SeriesAvoidsT14(Swift, SwiftFrom, SwiftUntil, 1);
  }

  lemma AppleLacksT14()
    ensures LacksT14(AppleFamilies())
  {
    forall f | f in AppleFamilies()
      ensures f.familyNameNorm != T14Norm
    {
      assert f.familyNameNorm[0] != T14Norm[0];
    }
  }

  /** The family the T14 variants name is never generated, so those variants
      have no family to attach to. */
  lemma T14FamilyMissing()
    ensures LacksT14(FamilyList())
  {
    LenovoHpAvoidT14();
    var out := WithHps(WithThinkPads([]));
    DellsAvoidT14(out);
    out := WithDells(out);
    AsusesAvoidT14(out);
    out := WithAsuses(out);
    AcersAvoidT14(out);
    out := WithAcers(out);
    AppleLacksT14();
    LacksT14Append(out, AppleFamilies());
  }

  lemma LenovoHpAvoidT14()
    ensures LacksT14(WithHps(WithThinkPads([])))
  {
    ThinkPadsAvoidT14([]);
    HpsAvoidT14(WithThinkPads([]));
  }
}
