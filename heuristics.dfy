/** Deal scoring of one lot: points for the discount against the market median, a bonus when
    the text hints at a cheap repair, a penalty for a suspiciously low price, a clamped score and
    a profit range.  The regular expressions the scoring runs are given as their results. */
module Heuristics {
  import opened Text

  /** `Decision`: the score, the profit range and the reasons shown to the user. */
  datatype Decision = Decision(score: int, profitMin: Option<int>, profitMax: Option<int>, reasons: seq<string>)

  /** What `analyze_lot` reads: the lot's title, description and price, and the market's median
      and quartiles (the upper quartile is accepted and not used). */
  datatype Lot = Lot(title: string, description: Option<string>, price: Option<int>,
    p50: Option<int>, p25: Option<int>, p75: Option<int>)

  /** The offsets of one match of an object pattern. */
  datatype Span = Span(start: int, end: int)

  /** One entry of the repair table: its cost range, its label, and whether a match of its
      pattern is a defect by itself. */
  datatype RepairObject = RepairObject(costMin: int, costMax: int, caption: string, alwaysDefect: bool)

  /** The results of the regular expressions: the matches of the `i`-th object pattern in a
      text, and whether the defect words occur in a text. */
  datatype Patterns = Patterns(objectMatches: (nat, string) -> seq<Span>, defectWords: string -> bool)

  /** The repair table. Only the last entry counts as a defect by itself: the check that
      decides it searches the pattern's own text, and the only alternative found there
      literally is the word for a donor. */
  const RepairObjects: seq<RepairObject> := [
    RepairObject(800, 2500, "клавиатура/ввод", false),
    RepairObject(1200, 4500, "АКБ", false),
    RepairObject(500, 3000, "петли/корпус", false),
    RepairObject(2500, 9000, "экран/матрица", false),
    RepairObject(500, 2500, "охлаждение", false),
    RepairObject(1500, 6000, "накопитель", false),
    RepairObject(600, 2500, "зарядка/БП", false),
    RepairObject(500, 7000, "не включается/не грузится", false),
    RepairObject(0, 8000, "под ремонт/донор", true)]

  const NoDataReason := "недостаточно данных (цена/рынок)"
  const CheapReason := "аномально дёшево (проверить вручную)"

  /** The window the repair check reads around a match of an object pattern. */
  const RepairWindow := 52

  /** The base repair range and the fixed other costs. */
  const BaseCostMin := 800
  const BaseCostMax := 4000
  const MiscCost := 700

  function Min(a: int, b: int): int { if a <= b then a else b }
  function Max(a: int, b: int): int { if a >= b then a else b }

  // ---------------------------------------------------------------------
  // Defects near an object
  // ---------------------------------------------------------------------

  /** `text[a:b]` with `a = max(0, start - window)` and `b = min(len(text), end + window)`. */
  function Window(text: string, m: Span, window: int): (chunk: string)
    ensures |chunk| <= |text|
  {
    var a := Max(0, m.start - window);
    var b := Min(|text|, m.end + window);
    if a < b then text[a..b] else ""
  }

  /** Whether the defect words occur near some match. */
  predicate DefectNear(text: string, spans: seq<Span>, defectWords: string -> bool, window: int) {
    exists k :: 0 <= k < |spans| && defectWords(Window(text, spans[k], window))
  }

  /** `_has_defect_near`: the matches are tried in order and the first window holding a defect
      word answers. */
  method HasDefectNear(text: string, spans: seq<Span>, defectWords: string -> bool, window: int) returns (b: bool)
    ensures b == DefectNear(text, spans, defectWords, window)
  {
    for k := 0 to |spans|
      invariant forall j :: 0 <= j < k ==> !defectWords(Window(text, spans[j], window))
    {
      var chunk := Window(text, spans[k], window);
      if defectWords(chunk) {
        return true;
      }
    }
    return false;
  }

  // ---------------------------------------------------------------------
  // The scoring
  // ---------------------------------------------------------------------

  /** Whether the discount `(p50 - price) / p50` reaches `percent` per cent, compared exactly
      by cross-multiplication. */
  predicate DiscountAtLeast(price: int, p50: int, percent: int) {
    100 * (p50 - price) >= percent * p50
  }

  /** The discount band: the points and the reason of the first band the discount reaches. */
  function DiscountBand(price: int, p50: int): (int, seq<string>)
    requires p50 > 0
  {
    if DiscountAtLeast(price, p50, 45) then (40, ["сильно ниже рынка (≥45%)"])
    else if DiscountAtLeast(price, p50, 30) then (25, ["ниже рынка (30–45%)"])
    else if DiscountAtLeast(price, p50, 20) then (15, ["ниже рынка (20–30%)"])
    else if DiscountAtLeast(price, p50, 10) then (5, ["слегка ниже рынка (10–20%)"])
    else (0, [])
  }

  /** A cheaper lot never gets fewer discount points, and a band gives one reason exactly when
      it gives points. */
  lemma DiscountMonotone(price1: int, price2: int, p50: int)
    requires p50 > 0 && price1 <= price2
    ensures DiscountBand(price1, p50).0 >= DiscountBand(price2, p50).0
    ensures |DiscountBand(price1, p50).1| == (if DiscountBand(price1, p50).0 == 0 then 0 else 1)
  {
  }

  /** Python's `int(p25 * 0.6)`: three fifths of the quartile, truncated toward zero. */
  function TruncSixTenths(p25: int): (n: int)
    ensures p25 >= 0 ==> 5 * n <= 3 * p25 < 5 * n + 5
    ensures p25 < 0 ==> 5 * n - 5 < 3 * p25 <= 5 * n
  {
    if p25 >= 0 then (3 * p25) / 5 else -((-3 * p25) / 5)
  }

  /** The "suspiciously cheap" test: the lower quartile is given and non-zero, and the price is
      below `int(p25 * 0.6)`. */
  predicate Cheap(price: int, p25: Option<int>) {
    p25.Some? && p25.value != 0 && price < TruncSixTenths(p25.value)
  }

  /** `max(0, min(100, score))`, as the two normalising `if`s compute it. */
  function Clamp(score: int): (r: int)
    ensures 0 <= r <= 100
    ensures 0 <= score <= 100 ==> r == score
  {
    if score < 0 then 0 else if score > 100 then 100 else score
  }

  // ---------------------------------------------------------------------
  // The repair scan
  // ---------------------------------------------------------------------

  /** The repair scan so far: the number of objects found, the running cost range and the
      repair reasons recorded. */
  datatype Repairs = Repairs(found: nat, costMin: int, costMax: int, reasons: seq<string>)

  function RepairReason(caption: string): string {
    "намёк на ремонт: " + caption
  }

  /** Whether the `i`-th object of the table is found: for an object that is a defect by itself
      any match of its pattern, otherwise a defect word near one of its matches. */
  predicate RuleHit(text: string, pats: Patterns, objs: seq<RepairObject>, i: nat)
    requires i < |objs|
  {
    if objs[i].alwaysDefect then |pats.objectMatches(i, text)| > 0
    else DefectNear(text, pats.objectMatches(i, text), pats.defectWords, RepairWindow)
  }

  /** One object of the scan: a found object is counted, widens the cost range, and is given a
      reason while at most two have been found. */
  function AfterObject(r: Repairs, o: RepairObject, hit: bool): Repairs {
    if !hit then r
    else
      Repairs(r.found + 1, Min(r.costMin, o.costMin), Max(r.costMax, o.costMax),
        if r.found + 1 <= 2 then r.reasons + [RepairReason(o.caption)] else r.reasons)
  }

  /** The scan over the first `n` objects of the table. */
  function Scan(text: string, pats: Patterns, objs: seq<RepairObject>, n: nat): Repairs
    requires n <= |objs|
  {
    if n == 0 then Repairs(0, BaseCostMin, BaseCostMax, [])
    else AfterObject(Scan(text, pats, objs, n - 1), objs[n - 1], RuleHit(text, pats, objs, n - 1))
  }

  /** The scan counts the objects found, gives reasons to the first two only, and finds
      nothing exactly when no object is found. */
  lemma {:induction false} ScanCounts(text: string, pats: Patterns, objs: seq<RepairObject>, n: nat)
    requires n <= |objs|
    ensures var r := Scan(text, pats, objs, n);
      r.found <= n
      && |r.reasons| == Min(r.found, 2)
      && (r.found == 0 <==> forall i :: 0 <= i < n ==> !RuleHit(text, pats, objs, i))
  {
    if n > 0 {
      ScanCounts(text, pats, objs, n - 1);
    }
  }

  /** The cost range only widens: it always covers the base range and the range of every
      object found. */
  lemma {:induction false} ScanCosts(text: string, pats: Patterns, objs: seq<RepairObject>, n: nat)
    requires n <= |objs|
    ensures var r := Scan(text, pats, objs, n);
      r.costMin <= BaseCostMin && BaseCostMax <= r.costMax
      && forall i :: 0 <= i < n && RuleHit(text, pats, objs, i) ==>
           r.costMin <= objs[i].costMin && objs[i].costMax <= r.costMax
  {
    if n > 0 {
      ScanCosts(text, pats, objs, n - 1);
    }
  }

  // ---------------------------------------------------------------------
  // The decision
  // ---------------------------------------------------------------------

  /** The text the patterns run on: title and description joined by a space, stripped. */
  function LotText(lot: Lot): string {
    Strip(lot.title + " " + OrElse(lot.description, ""))
  }

  predicate MissingData(lot: Lot) {
    lot.price.None? || lot.p50.None? || lot.p50.value <= 0
  }

  /** `analyze_lot`, with the repair table `objs` (the source's table is `RepairObjects`). */
  function Analyze(lot: Lot, pats: Patterns, objs: seq<RepairObject>): Decision {
    if MissingData(lot) then Decision(0, None, None, [NoDataReason])
    else
      var price := lot.price.value;
      var p50 := lot.p50.value;
      Decide(price, p50, lot.p25, DiscountBand(price, p50), Scan(LotText(lot), pats, objs, |objs|))
  }

  /** The decision once the discount band and the repair scan are known. */
  function Decide(price: int, p50: int, p25: Option<int>, band: (int, seq<string>), rep: Repairs): Decision {
    var cheap := Cheap(price, p25);
    var score := band.0 + (if rep.found >= 1 then 12 else 0) - (if cheap then 10 else 0);
    var reasons := band.1 + rep.reasons + (if cheap then [CheapReason] else []);
    Decision(Clamp(score), Some(p50 - price - rep.costMax - MiscCost), Some(p50 - price - rep.costMin - MiscCost),
      if |reasons| <= 5 then reasons else reasons[..5])
  }

  /** Without a price or a positive market median the lot scores 0 with no profit range and a
      single reason, and only then is the profit range missing. */
  lemma AnalyzeMissingData(lot: Lot, pats: Patterns, objs: seq<RepairObject>)
    ensures var d := Analyze(lot, pats, objs);
      (MissingData(lot) ==> d == Decision(0, None, None, [NoDataReason]))
      && (d.profitMin.None? <==> MissingData(lot))
      && (d.profitMax.None? <==> MissingData(lot))
  {
  }

  /** The score lies in [0, 100], and at most five reasons are returned. */
  lemma AnalyzeBounds(lot: Lot, pats: Patterns, objs: seq<RepairObject>)
    ensures 0 <= Analyze(lot, pats, objs).score <= 100
    ensures |Analyze(lot, pats, objs).reasons| <= 5
  {
  }

  /** The profit range is never inverted, and its width is the width of the repair range,
      which is at least that of the base range. */
  lemma AnalyzeProfitOrdered(lot: Lot, pats: Patterns, objs: seq<RepairObject>)
    requires !MissingData(lot)
    ensures var d := Analyze(lot, pats, objs);
      d.profitMin.value + (BaseCostMax - BaseCostMin) <= d.profitMax.value
  {
    ScanCosts(LotText(lot), pats, objs, |objs|);
  }

  /** Whether some object of the table is found in the lot's text. */
  predicate AnyRepair(lot: Lot, pats: Patterns, objs: seq<RepairObject>) {
    exists i :: 0 <= i < |objs| && RuleHit(LotText(lot), pats, objs, i)
  }

  /** The score before clamping is the discount points, plus 12 once when any object is found
      however many are, minus 10 for a suspiciously cheap lot. */
  lemma AnalyzeScore(lot: Lot, pats: Patterns, objs: seq<RepairObject>)
    requires !MissingData(lot)
    ensures var price := lot.price.value;
      Analyze(lot, pats, objs).score
      == Clamp(DiscountBand(price, lot.p50.value).0 + (if AnyRepair(lot, pats, objs) then 12 else 0)
               - (if Cheap(price, lot.p25) then 10 else 0))
  {
    ScanCounts(LotText(lot), pats, objs, |objs|);
  }

  /** When an object is found, the reason right after the discount's names the first one. */
  lemma AnalyzeRepairReason(lot: Lot, pats: Patterns, objs: seq<RepairObject>)
    requires !MissingData(lot) && AnyRepair(lot, pats, objs)
    ensures var band := DiscountBand(lot.price.value, lot.p50.value);
      var d := Analyze(lot, pats, objs);
      |d.reasons| > |band.1| && d.reasons[|band.1|] == RepairReason(objs[FirstHit(lot, pats, objs)].caption)
  {
    var text := LotText(lot);
    var price, p50 := lot.price.value, lot.p50.value;
    var band := DiscountBand(price, p50);
    var rep := Scan(text, pats, objs, |objs|);
    ScanCounts(text, pats, objs, |objs|);
    FirstHitReason(text, pats, objs, |objs|);
    DiscountMonotone(price, price, p50);
    DecideReason(price, p50, lot.p25, band, rep);
  }

  /** Decide keeps every reason of the scan, right after the band's, when neither needs cutting. */
  lemma DecideReason(price: int, p50: int, p25: Option<int>, band: (int, seq<string>), rep: Repairs)
    requires |band.1| <= 1 && 0 < |rep.reasons| <= 2
    ensures var r := Decide(price, p50, p25, band, rep).reasons;
      |r| > |band.1| && r[|band.1|] == rep.reasons[0]
  {
    var all := band.1 + rep.reasons + (if Cheap(price, p25) then [CheapReason] else []);
    assert |all| <= 5;
    assert all[|band.1|] == rep.reasons[0];
  }

  /** The position of the first object found. */
  function FirstHit(lot: Lot, pats: Patterns, objs: seq<RepairObject>): (i: nat)
    requires AnyRepair(lot, pats, objs)
    ensures i < |objs| && RuleHit(LotText(lot), pats, objs, i)
    ensures forall j :: 0 <= j < i ==> !RuleHit(LotText(lot), pats, objs, j)
  {
    FirstFrom(LotText(lot), pats, objs, 0)
  }

  function FirstFrom(text: string, pats: Patterns, objs: seq<RepairObject>, k: nat): (i: nat)
    requires k <= |objs|
    requires exists i :: k <= i < |objs| && RuleHit(text, pats, objs, i)
    ensures k <= i < |objs| && RuleHit(text, pats, objs, i)
    ensures forall j :: k <= j < i ==> !RuleHit(text, pats, objs, j)
    decreases |objs| - k
  {
    if RuleHit(text, pats, objs, k) then k else FirstFrom(text, pats, objs, k + 1)
  }

  /** The first reason of a scan that found something names the first object found. */
  lemma {:induction false} FirstHitReason(text: string, pats: Patterns, objs: seq<RepairObject>, n: nat)
    requires n <= |objs|
    ensures var r := Scan(text, pats, objs, n);
      r.found > 0 ==> |r.reasons| > 0 && exists i :: (0 <= i < n && RuleHit(text, pats, objs, i)
        && (forall j :: 0 <= j < i ==> !RuleHit(text, pats, objs, j))
        && r.reasons[0] == RepairReason(objs[i].caption))
  {
    ScanCounts(text, pats, objs, n);
    if n > 0 {
      FirstHitReason(text, pats, objs, n - 1);
      ScanCounts(text, pats, objs, n - 1);
    }
  }

  // ---------------------------------------------------------------------
  // The imperative scoring
  // ---------------------------------------------------------------------

  /** The loop over the repair table, appending its reasons to `reasons0`. */
  method ScanRepairs(text: string, pats: Patterns, objs: seq<RepairObject>, reasons0: seq<string>)
      returns (found: nat, costMin: int, costMax: int, reasons: seq<string>)
    ensures var r := Scan(text, pats, objs, |objs|);
      found == r.found && costMin == r.costMin && costMax == r.costMax && reasons == reasons0 + r.reasons
  {
    reasons := reasons0;
    costMin, costMax := BaseCostMin, BaseCostMax;
    found := 0;
    for i := 0 to |objs|
      invariant var r := Scan(text, pats, objs, i);
        found == r.found && costMin == r.costMin && costMax == r.costMax && reasons == reasons0 + r.reasons
    {
      var o := objs[i];
      var matches := pats.objectMatches(i, text);
      var ok := false;
      if o.alwaysDefect {
        ok := |matches| > 0;
      } else {
        ok := HasDefectNear(text, matches, pats.defectWords, RepairWindow);
      }
      if ok {
        found := found + 1;
        costMin := Min(costMin, o.costMin);
        costMax := Max(costMax, o.costMax);
        if found <= 2 {
          reasons := reasons + [RepairReason(o.caption)];
        }
      }
    }
  }

  /** The discount chain of `analyze_lot`: the first band the discount reaches adds its points
      and its reason. */
  method DiscountPoints(price: int, p50: int) returns (score: int, reasons: seq<string>)
    requires p50 > 0
    ensures (score, reasons) == DiscountBand(price, p50)
  {
    score, reasons := 0, [];
    assert forall x: seq<string> :: reasons + x == x;
    if 100 * (p50 - price) >= 45 * p50 {
      score := score + 40;
      reasons := reasons + ["сильно ниже рынка (≥45%)"];
    } else if 100 * (p50 - price) >= 30 * p50 {
      score := score + 25;
      reasons := reasons + ["ниже рынка (30–45%)"];
    } else if 100 * (p50 - price) >= 20 * p50 {
      score := score + 15;
      reasons := reasons + ["ниже рынка (20–30%)"];
    } else if 100 * (p50 - price) >= 10 * p50 {
      score := score + 5;
      reasons := reasons + ["слегка ниже рынка (10–20%)"];
    }
  }

  /** `analyze_lot`, step by step as the source computes it. */
  method AnalyzeLot(lot: Lot, pats: Patterns, objs: seq<RepairObject>) returns (d: Decision)
    ensures d == Analyze(lot, pats, objs)
  {
    var text := Strip(lot.title + " " + OrElse(lot.description, ""));
    if lot.price.None? || lot.p50.None? || lot.p50.value <= 0 {
      return Decision(0, None, None, [NoDataReason]);
    }
    var price := lot.price.value;
    var p50 := lot.p50.value;
    var score, reasons := DiscountPoints(price, p50);
    var found, costMin, costMax, repReasons := ScanRepairs(text, pats, objs, []);
    assert text == LotText(lot);
    assert [] + Scan(text, pats, objs, |objs|).reasons == Scan(text, pats, objs, |objs|).reasons;
    d := Conclude(price, p50, lot.p25, (score, reasons), Repairs(found, costMin, costMax, repReasons));
  }

  /** The last steps of the analysis: the repair bonus, the penalty for a suspiciously cheap
      lot, the profit range, the clamp and the cut to five reasons. */
  method Conclude(price: int, p50: int, p25: Option<int>, band: (int, seq<string>), rep: Repairs)
      returns (d: Decision)
    ensures d == Decide(price, p50, p25, band, rep)
  {
    var score := band.0;
    var reasons := band.1 + rep.reasons;
    if rep.found >= 1 {
      score := score + 12;
    }
    if p25.Some? && p25.value != 0 && price < TruncSixTenths(p25.value) {
      score := score - 10;
      reasons := reasons + [CheapReason];
    }
    var profitMin := p50 - price - rep.costMax - MiscCost;
    var profitMax := p50 - price - rep.costMin - MiscCost;
    if score < 0 {
      score := 0;
    }
    if score > 100 {
      score := 100;
    }
    d := Decision(score, Some(profitMin), Some(profitMax), if |reasons| <= 5 then reasons else reasons[..5]);
  }
}
