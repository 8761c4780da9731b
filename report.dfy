/** The market report for one search: every new lot is scored, the lots that pass the
    thresholds are ranked and the best shown (or the best of all lots when none passes), and
    the report is split into messages that fit the chat service's limit. */
module Report {
  import opened Text
  import Heuristics
  import ReportFmt

  /** A new lot as the report reads it: only the fields the report uses. */
  datatype Item = Item(title: Option<string>, description: Option<string>, price: Option<int>,
    url: Option<string>, city: Option<string>, location: Option<string>)

  /** The market statistics of the search: the number of prices and the quartiles. */
  datatype Stats = Stats(n: int, p25: Option<int>, p50: Option<int>, p75: Option<int>)

  /** A lot with its decision. */
  datatype Entry = Entry(dec: Heuristics.Decision, item: Item)

  /** The thresholds and the number of lots to show. */
  datatype Limits = Limits(topN: int, scoreMin: int, profitMinNeed: int)

  const DefaultLimits := Limits(10, 65, 1500)

  /** The module's own `format_money`, which the report uses: a dash for a missing value,
      otherwise the integer with its thousands separated by spaces. */
  function FormatMoney(v: Option<int>): (r: string)
    ensures v.None? <==> r == "—"
  {
    if v.None? then "—" else ReportFmt.Grouped(v.value)
  }

  /** On integers this agrees with the rounding formatter, and the digits read back as
      `str(v)`. */
  lemma FormatMoneyAgrees(v: int)
    ensures FormatMoney(Some(v)) == ReportFmt.FormatMoney(Some(v as real))
    ensures RemoveChar(FormatMoney(Some(v)), ' ') == IntToString(v)
  {
    assert ReportFmt.RoundHalfEven(v as real) == v;
    ReportFmt.GroupedDigits(v);
  }

  // ---------------------------------------------------------------------
  // Scoring and selection
  // ---------------------------------------------------------------------

  /** The arguments `analyze_lot` is called with for one lot: a missing title is empty, the
      market figures are the search's. */
  function LotOf(it: Item, st: Stats): Heuristics.Lot {
    Heuristics.Lot(OrElse(it.title, ""), it.description, it.price, st.p50, st.p25, st.p75)
  }

  function Score(it: Item, st: Stats, pats: Heuristics.Patterns): Entry {
    Entry(Heuristics.Analyze(LotOf(it, st), pats, Heuristics.RepairObjects), it)
  }

  /** Every lot with its decision, in the order of the lots. */
  function ScoredAll(items: seq<Item>, st: Stats, pats: Heuristics.Patterns): (r: seq<Entry>)
    ensures |r| == |items|
  {
    if |items| == 0 then []
    else ScoredAll(items[..|items| - 1], st, pats) + [Score(items[|items| - 1], st, pats)]
  }

  /** The thresholds a candidate passes: a known maximum profit of at least the required one,
      and a high enough score. */
  predicate IsCandidate(e: Entry, lim: Limits) {
    e.dec.profitMax.Some? && e.dec.score >= lim.scoreMin && e.dec.profitMax.value >= lim.profitMinNeed
  }

  /** The candidates, in the order of the lots. */
  function Candidates(scored: seq<Entry>, lim: Limits): (r: seq<Entry>)
    ensures forall k :: 0 <= k < |r| ==> IsCandidate(r[k], lim) && r[k] in scored
    ensures multiset(r) <= multiset(scored)
  {
    if |scored| == 0 then []
    else
      var r := Candidates(scored[..|scored| - 1], lim);
      assert scored == scored[..|scored| - 1] + [scored[|scored| - 1]];
      if IsCandidate(scored[|scored| - 1], lim) then r + [scored[|scored| - 1]] else r
  }

  /** Every entry that passes the thresholds is a candidate. */
  lemma {:induction false} CandidatesComplete(scored: seq<Entry>, lim: Limits)
    ensures forall k :: 0 <= k < |scored| && IsCandidate(scored[k], lim) ==> scored[k] in Candidates(scored, lim)
  {
    if |scored| > 0 {
      var init := scored[..|scored| - 1];
      CandidatesComplete(init, lim);
      forall k | 0 <= k < |scored| && IsCandidate(scored[k], lim)
        ensures scored[k] in Candidates(scored, lim)
      {
        if k < |scored| - 1 {
          assert scored[k] == init[k];
        }
      }
    }
  }

  /** The second part of the sort key, `profit_max or -10**9`: a missing maximum profit, and
      one of exactly zero, rank as minus a billion. */
  function ProfitKey(d: Heuristics.Decision): int {
    if d.profitMax.None? || d.profitMax.value == 0 then -1000000000 else d.profitMax.value
  }

  /** Whether `a` ranks at least as high as `b`: by score, then by the profit key. */
  predicate RanksAbove(a: Entry, b: Entry) {
    a.dec.score > b.dec.score || (a.dec.score == b.dec.score && ProfitKey(a.dec) >= ProfitKey(b.dec))
  }

  /** A lot whose maximum profit is exactly zero ranks below one with a loss and the same
      score. */
  lemma ZeroProfitRanksLast(a: Entry, b: Entry)
    requires a.dec.score == b.dec.score && a.dec.profitMax == Some(0)
    requires b.dec.profitMax.Some? && -1000000000 < b.dec.profitMax.value < 0
    ensures RanksAbove(b, a) && !RanksAbove(a, b)
  {
  }

  predicate SortedDesc(s: seq<Entry>) {
    forall i, j :: 0 <= i < j < |s| ==> RanksAbove(s[i], s[j])
  }

  /** Inserting after every entry that ranks at least as high, so that equal keys keep their
      order as Python's stable sort does. */
  function Insert(s: seq<Entry>, e: Entry): (r: seq<Entry>)
    ensures multiset(r) == multiset(s) + multiset{e}
    ensures |r| == |s| + 1
  {
    if |s| == 0 || !RanksAbove(s[0], e) then [e] + s
    else
      assert s == [s[0]] + s[1..];
      [s[0]] + Insert(s[1..], e)
  }

  /** `sort(key=..., reverse=True)`: highest rank first, equal keys in their original order. */
  function SortDesc(s: seq<Entry>): (r: seq<Entry>)
    ensures multiset(r) == multiset(s)
    ensures |r| == |s|
  {
    if |s| == 0 then []
    else
      assert s == s[..|s| - 1] + [s[|s| - 1]];
      Insert(SortDesc(s[..|s| - 1]), s[|s| - 1])
  }

  lemma SortedTail(s: seq<Entry>)
    requires |s| > 0 && SortedDesc(s)
    ensures SortedDesc(s[1..])
  {
    forall i, j | 0 <= i < j < |s| - 1
      ensures RanksAbove(s[1..][i], s[1..][j])
    {
      assert s[1..][i] == s[i + 1] && s[1..][j] == s[j + 1];
    }
  }

  lemma {:induction false} InsertSorted(s: seq<Entry>, e: Entry)
    requires SortedDesc(s)
    ensures SortedDesc(Insert(s, e))
  {
    if |s| > 0 && RanksAbove(s[0], e) {
      SortedTail(s);
      InsertSorted(s[1..], e);
      var t := Insert(s[1..], e);
      forall k | 0 <= k < |t|
        ensures RanksAbove(s[0], t[k])
      {
        assert t[k] in multiset(s[1..]) + multiset{e};
        if t[k] != e {
          assert t[k] in s[1..];
          var m :| 0 <= m < |s[1..]| && s[1..][m] == t[k];
          assert s[m + 1] == t[k];
        }
      }
    } else {
      forall k | 0 <= k < |s|
        ensures RanksAbove(e, s[k])
      {
        assert !RanksAbove(s[0], e);
        if k > 0 {
          assert RanksAbove(s[0], s[k]);
        }
      }
      assert Insert(s, e) == [e] + s;
    }
  }

  /** The sorted list is ordered by rank. */
  lemma {:induction false} SortDescSorted(s: seq<Entry>)
    ensures SortedDesc(SortDesc(s))
  {
    if |s| > 0 {
      SortDescSorted(s[..|s| - 1]);
      InsertSorted(SortDesc(s[..|s| - 1]), s[|s| - 1]);
    }
  }

  /** Two entries with the same sort key. */
  predicate SameKey(a: Entry, b: Entry) {
    a.dec.score == b.dec.score && ProfitKey(a.dec) == ProfitKey(b.dec)
  }

  /** The entries of `s` whose sort key is that of `x`, in order. */
  function WithKey(s: seq<Entry>, x: Entry): (r: seq<Entry>)
    ensures |r| <= |s|
    ensures forall k :: 0 <= k < |r| ==> SameKey(r[k], x)
  {
    if |s| == 0 then [] else (if SameKey(s[0], x) then [s[0]] else []) + WithKey(s[1..], x)
  }

  lemma {:induction false} WithKeyAppend(a: seq<Entry>, b: seq<Entry>, x: Entry)
    ensures WithKey(a + b, x) == WithKey(a, x) + WithKey(b, x)
    decreases |a|
  {
    if |a| == 0 {
      assert a + b == b;
    } else {
      assert (a + b)[1..] == a[1..] + b;
      WithKeyAppend(a[1..], b, x);
    }
  }

  lemma {:induction false} WithKeyNone(s: seq<Entry>, x: Entry)
    requires forall k :: 0 <= k < |s| ==> !SameKey(s[k], x)
    ensures WithKey(s, x) == []
    decreases |s|
  {
    if |s| > 0 {
      assert forall k :: 0 <= k < |s| - 1 ==> s[1..][k] == s[k + 1];
      WithKeyNone(s[1..], x);
    }
  }

  lemma WithKeyCons(a: Entry, t: seq<Entry>, x: Entry)
    ensures WithKey([a] + t, x) == (if SameKey(a, x) then [a] else []) + WithKey(t, x)
  {
    assert ([a] + t)[1..] == t;
  }

  /** An entry ranked strictly above the whole of a sorted list shares its key with none of
      it. */
  lemma FrontStable(s: seq<Entry>, e: Entry, x: Entry)
    requires SortedDesc(s) && (|s| == 0 || !RanksAbove(s[0], e))
    ensures WithKey([e] + s, x) == WithKey(s, x) + (if SameKey(e, x) then [e] else [])
  {
    WithKeyCons(e, s, x);
    if SameKey(e, x) {
      forall k | 0 <= k < |s|
        ensures !SameKey(s[k], x)
      {
        if k > 0 {
          assert RanksAbove(s[0], s[k]);
        }
      }
      WithKeyNone(s, x);
    }
  }

  /** Inserting into a sorted list puts the new entry after every entry with its key. */
  lemma {:induction false} InsertStable(s: seq<Entry>, e: Entry, x: Entry)
    requires SortedDesc(s)
    ensures WithKey(Insert(s, e), x) == WithKey(s, x) + (if SameKey(e, x) then [e] else [])
    decreases |s|
  {
    if |s| > 0 && RanksAbove(s[0], e) {
      SortedTail(s);
      InsertStable(s[1..], e, x);
      WithKeyCons(s[0], Insert(s[1..], e), x);
      WithKeyCons(s[0], s[1..], x);
      assert [s[0]] + s[1..] == s;
    } else {
      FrontStable(s, e, x);
    }
  }

  /** The sort is stable, as Python's is: the entries sharing any one sort key come out in the
      order they went in. */
  lemma {:induction false} SortDescStable(s: seq<Entry>, x: Entry)
    ensures WithKey(SortDesc(s), x) == WithKey(s, x)
    decreases |s|
  {
    if |s| > 0 {
      var init, last := s[..|s| - 1], s[|s| - 1];
      var sorted := SortDesc(init);
      assert SortDesc(s) == Insert(sorted, last);
      SortDescStable(init, x);
      SortDescSorted(init);
      InsertStable(sorted, last, x);
      assert s == init + [last];
      WithKeyAppend(init, [last], x);
      WithKeyCons(last, [], x);
      assert [last] + [] == [last];
    }
  }

  /** `xs[:n]` with Python's slicing, a negative `n` counting from the end. */
  function Take(s: seq<Entry>, n: int): (r: seq<Entry>)
    ensures r <= s
    ensures n >= 0 ==> |r| == Heuristics.Min(n, |s|)
  {
    if n >= 0 then (if n <= |s| then s[..n] else s)
    else if |s| + n > 0 then s[..|s| + n] else []
  }

  /** The lots shown: the best `topN` candidates, or the best `topN` of all lots when there is
      no candidate; and whether the fallback was taken. */
  function Show(scored: seq<Entry>, lim: Limits): (seq<Entry>, bool) {
    var cands := Candidates(scored, lim);
    if |cands| > 0 then (Take(SortDesc(cands), lim.topN), false)
    else (Take(SortDesc(scored), lim.topN), true)
  }

  /** The list the lots are shown from: the sorted candidates, or all lots sorted when there
      is no candidate. */
  function Pool(scored: seq<Entry>, lim: Limits): seq<Entry> {
    var cands := Candidates(scored, lim);
    if |cands| > 0 then SortDesc(cands) else SortDesc(scored)
  }

  /** The shown lots are a prefix of the pool, at most `topN` of them, and the fallback is
      taken exactly when there is no candidate. */
  lemma ShowPrefix(scored: seq<Entry>, lim: Limits)
    ensures var (show, fallback) := Show(scored, lim);
      show <= Pool(scored, lim)
      && (lim.topN >= 0 ==> |show| <= lim.topN)
      && (fallback <==> |Candidates(scored, lim)| == 0)
  {
  }

  /** The shown lots are ranked highest first. */
  lemma ShowSorted(scored: seq<Entry>, lim: Limits)
    ensures SortedDesc(Show(scored, lim).0)
  {
    var cands := Candidates(scored, lim);
    SortDescSorted(if |cands| > 0 then cands else scored);
    var pool := Pool(scored, lim);
    var show := Show(scored, lim).0;
    assert forall k :: 0 <= k < |show| ==> show[k] == pool[k];
  }

  /** With candidates, every shown lot is one of the lots and passes the thresholds. */
  lemma ShowCandidates(scored: seq<Entry>, lim: Limits)
    requires |Candidates(scored, lim)| > 0
    ensures var show := Show(scored, lim).0;
      forall k :: 0 <= k < |show| ==> IsCandidate(show[k], lim) && show[k] in scored
  {
    var cands := Candidates(scored, lim);
    var pool := SortDesc(cands);
    var show := Show(scored, lim).0;
    forall k | 0 <= k < |show|
      ensures IsCandidate(show[k], lim) && show[k] in scored
    {
      assert show[k] == pool[k];
      assert show[k] in multiset(cands);
    }
  }

  /** No lot left in the pool ranks above a shown one. */
  lemma ShowBest(scored: seq<Entry>, lim: Limits)
    ensures var show := Show(scored, lim).0;
      var pool := Pool(scored, lim);
      forall i, j :: 0 <= i < |show| <= j < |pool| ==> RanksAbove(show[i], pool[j])
  {
    var cands := Candidates(scored, lim);
    SortDescSorted(if |cands| > 0 then cands else scored);
    var pool := Pool(scored, lim);
    var show := Show(scored, lim).0;
    assert forall k :: 0 <= k < |show| ==> show[k] == pool[k];
  }

  // ---------------------------------------------------------------------
  // The text
  // ---------------------------------------------------------------------

  /** The head of the report: the query, the market figures and the number of new lots. */
  function Header(query: string, st: Stats, count: nat): string {
    "📊 <b>Отчёт по запросу:</b> " + ReportFmt.EscText(query) + "\n"
    + "<pre>" + "Рынок (окно): n=" + IntToString(st.n) + "\n"
    + "p25: " + FormatMoney(st.p25) + " ₽\n"
    + "p50: " + FormatMoney(st.p50) + " ₽\n"
    + "p75: " + FormatMoney(st.p75) + " ₽"
    + "</pre>\n"
    + "🆕 Новых лотов: <b>" + NatToString(count) + "</b>\n"
  }

  const NothingNew := "\nНовых объявлений нет."
  const Separator := "────────────────────\n"
  const Legend := "Легенда: 💎/🔥/✅ — профит, 🟢🟡🟠🔴 — score, 📌 — цена относительно рынка.\n\n"
  const FallbackTitle := "\n⚠ <b>Кандидатов по порогам нет</b>\nТоп новых по score:\n"

  function CandidatesTitle(shown: nat): string {
    "\n✅ <b>Кандидаты (top " + NatToString(shown) + ")</b>\n"
  }

  /** `x or y` on optional text: an empty or missing text falls through. */
  function OrText(a: Option<string>, b: string): string {
    if a.Some? && a.value != "" then a.value else b
  }

  /** The six parts of one shown lot, numbered from 1. */
  function ItemParts(idx: int, e: Entry, st: Stats): seq<string> {
    var it := e.item;
    var d := e.dec;
    var url := OrText(it.url, "");
    var title := OrText(it.title, "");
    var city := OrText(it.city, OrText(it.location, ""));
    var reasons := if |d.reasons| > 0 then Join(d.reasons, "; ") else "—";
    var pBadge := ReportFmt.BadgeProfit(d.profitMin, d.profitMax);
    var sBadge := ReportFmt.BadgeScore(d.score);
    var prBadge := ReportFmt.BadgePrice(it.price, st.p25, st.p50, st.p75);
    var money := "💰 <b>" + FormatMoney(it.price) + " ₽</b> · 📌 " + ReportFmt.EscText(prBadge);
    [IntToString(idx) + ") " + pBadge + " " + sBadge + " <b>" + ReportFmt.EscText(title) + "</b>\n",
     if city != "" then money + " · 📍 " + ReportFmt.EscText(city) + "\n" else money + "\n",
     "📊 p50: <b>" + FormatMoney(st.p50) + " ₽</b>\n",
     "📈 Профит: <b>" + FormatMoney(d.profitMin) + " .. " + FormatMoney(d.profitMax) + " ₽</b>\n",
     "🧩 " + ReportFmt.EscText(reasons) + "\n",
     "🔗 <a href=\"" + ReportFmt.EscText(url) + "\">Открыть объявление</a>\n\n"]
  }

  /** The parts of the shown lots from position `from` on, numbered from `from + 1`. */
  function LotParts(show: seq<Entry>, st: Stats, from: nat): seq<string>
    requires from <= |show|
    decreases |show| - from
  {
    if from == |show| then [] else ItemParts(from + 1, show[from], st) + LotParts(show, st, from + 1)
  }

  /** The parts of a report with at least one lot: the header, the title of the selection,
      the separator, the legend, then six parts per shown lot. */
  function Parts(query: string, st: Stats, count: nat, show: seq<Entry>, fallback: bool): seq<string> {
    [Header(query, st, count), if fallback then FallbackTitle else CandidatesTitle(|show|), Separator, Legend]
    + LotParts(show, st, 0)
  }

  lemma LotPartsLength(show: seq<Entry>, st: Stats, from: nat)
    requires from <= |show|
    ensures |LotParts(show, st, from)| == 6 * (|show| - from)
    decreases |show| - from
  {
    if from < |show| {
      LotPartsLength(show, st, from + 1);
    }
  }

  lemma AppendEmpty<T>(a: seq<T>, e: seq<T>)
    requires |e| == 0
    ensures a + e == a
  {
  }

  lemma AppendAssoc<T>(a: seq<T>, b: seq<T>, c: seq<T>)
    ensures (a + b) + c == a + (b + c)
  {
  }

  /** `build_report_v2`. */
  method BuildReport(query: string, st: Stats, items: seq<Item>, lim: Limits, pats: Heuristics.Patterns)
      returns (msgs: seq<string>)
    ensures |items| == 0 ==> msgs == [Header(query, st, 0) + NothingNew]
    ensures |items| > 0 ==>
      var (show, fallback) := Show(ScoredAll(items, st, pats), lim);
      msgs == ReportFmt.Messages(Parts(query, st, |items|, show, fallback), ReportFmt.MessageLimit)
      && ReportFmt.Fits(msgs, ReportFmt.MessageLimit)
      && ReportFmt.Concat(msgs) == ReportFmt.Concat(Parts(query, st, |items|, show, fallback))
  {
    var header := Header(query, st, |items|);
    if |items| == 0 {
      return [header + NothingNew];
    }
    var scored: seq<Entry> := [];
    for i := 0 to |items|
      invariant scored == ScoredAll(items[..i], st, pats)
    {
      assert items[..i + 1][..i] == items[..i];
      scored := scored + [Score(items[i], st, pats)];
    }
    assert items[..|items|] == items;
    var cands := Candidates(scored, lim);
    cands := SortDesc(cands);
    var show, titleBlock;
    if |cands| > 0 {
      show := Take(cands, lim.topN);
      titleBlock := CandidatesTitle(|show|);
    } else {
      scored := SortDesc(scored);
      show := Take(scored, lim.topN);
      titleBlock := FallbackTitle;
    }
    assert (show, |cands| == 0) == Show(ScoredAll(items, st, pats), lim);
    var parts := [header, titleBlock, Separator, Legend];
    for k := 0 to |show|
      invariant parts + LotParts(show, st, k) == Parts(query, st, |items|, show, |cands| == 0)
    {
      AppendAssoc(parts, ItemParts(k + 1, show[k], st), LotParts(show, st, k + 1));
      parts := parts + ItemParts(k + 1, show[k], st);
    }
    AppendEmpty(parts, []);
    msgs := ReportFmt.SplitHtmlMessages(parts, ReportFmt.MessageLimit);
  }
}
