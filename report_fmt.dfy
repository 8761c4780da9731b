// Formatting helpers of the report: HTML escaping, money, badges, short links, and the
// splitting of a report into messages that fit the chat service's limit.

module ReportFmt {
  import opened Text

  /** The safe length of one chat message (the service allows about 4096 characters). */
  const MessageLimit := 3900

  // ---------------------------------------------------------------------
  // HTML escaping
  // ---------------------------------------------------------------------

  function EscChar(c: char): string {
    if c == '&' then "&amp;"
    else if c == '<' then "&lt;"
    else if c == '>' then "&gt;"
    else if c == '"' then "&quot;"
    else if c == '\'' then "&#x27;"
    else [c]
  }

  /** `html.escape(s)` with its default `quote=True`: the five special characters become
      entities, every other character is kept. */
  function EscText(s: string): (r: string)
    ensures forall i :: 0 <= i < |r| ==> r[i] != '<' && r[i] != '>' && r[i] != '"' && r[i] != '\''
  {
    if |s| == 0 then "" else EscChar(s[0]) + EscText(s[1..])
  }

  /** `esc`: a missing text escapes to the empty string. */
  function Esc(s: Option<string>): string {
    EscText(OrElse(s, ""))
  }

  /** The reading of escaped text back: each entity `EscChar` writes stands for its character. */
  function Unescape(t: string): string
    decreases |t|
  {
    if |t| == 0 then ""
    else if StartsWith(t, "&amp;") then "&" + Unescape(t[5..])
    else if StartsWith(t, "&lt;") then "<" + Unescape(t[4..])
    else if StartsWith(t, "&gt;") then ">" + Unescape(t[4..])
    else if StartsWith(t, "&quot;") then "\"" + Unescape(t[6..])
    else if StartsWith(t, "&#x27;") then "'" + Unescape(t[6..])
    else [t[0]] + Unescape(t[1..])
  }

  lemma UnescapeAmp(rest: string)
    ensures Unescape("&amp;" + rest) == "&" + Unescape(rest)
  {
    var t := "&amp;" + rest;
    assert t[..5] == "&amp;" && t[5..] == rest;
  }

  lemma UnescapeLt(rest: string)
    ensures Unescape("&lt;" + rest) == "<" + Unescape(rest)
  {
    var t := "&lt;" + rest;
    assert t[1] == 'l';
    assert t[..4] == "&lt;" && t[4..] == rest;
  }

  lemma UnescapeGt(rest: string)
    ensures Unescape("&gt;" + rest) == ">" + Unescape(rest)
  {
    var t := "&gt;" + rest;
    assert t[1] == 'g' && t[..4] == "&gt;" && t[4..] == rest;
  }

  lemma UnescapeQuot(rest: string)
    ensures Unescape("&quot;" + rest) == "\"" + Unescape(rest)
  {
    var t := "&quot;" + rest;
    assert t[1] == 'q' && t[..6] == "&quot;" && t[6..] == rest;
  }

  lemma UnescapeApos(rest: string)
    ensures Unescape("&#x27;" + rest) == "'" + Unescape(rest)
  {
    var t := "&#x27;" + rest;
    assert t[1] == '#' && t[..6] == "&#x27;" && t[6..] == rest;
  }

  lemma UnescapeChar(c: char, rest: string)
    ensures Unescape(EscChar(c) + rest) == [c] + Unescape(rest)
  {
    if c == '&' {
      UnescapeAmp(rest);
    } else if c == '<' {
      UnescapeLt(rest);
    } else if c == '>' {
      UnescapeGt(rest);
    } else if c == '"' {
      UnescapeQuot(rest);
    } else if c == '\'' {
      UnescapeApos(rest);
    } else {
      UnescapePlain(c, rest);
    }
  }

  /** A character that starts no entity reads back as itself. */
  lemma UnescapePlain(c: char, rest: string)
    requires c != '&'
    ensures Unescape([c] + rest) == [c] + Unescape(rest)
  {
    var t := [c] + rest;
    assert t[1..] == rest;
    assert forall e: string :: |e| > 0 && e[0] == '&' ==> !StartsWith(t, e) by {
      forall e: string | |e| > 0 && e[0] == '&'
        ensures !StartsWith(t, e)
      {
        if |e| <= |t| {
          assert t[..|e|][0] == c;
        }
      }
    }
  }

  /** Escaping loses nothing: the escaped text reads back as the original. */
  lemma {:induction false} UnescapeEsc(s: string)
    ensures Unescape(EscText(s)) == s
  {
    if |s| > 0 {
      UnescapeEsc(s[1..]);
      UnescapeChar(s[0], EscText(s[1..]));
      assert s == [s[0]] + s[1..];
    }
  }

  // ---------------------------------------------------------------------
  // Money
  // ---------------------------------------------------------------------

  function Digit3(d: nat): string
    requires d < 1000
  {
    [DigitChar(d / 100), DigitChar(d / 10 % 10), DigitChar(d % 10)]
  }

  /** `f"{n:,}"` for a natural number, with the thousands separator written as a space. */
  function GroupNat(n: nat): string {
    if n < 1000 then NatToString(n) else GroupNat(n / 1000) + " " + Digit3(n % 1000)
  }

  /** `f"{v:,}".replace(",", " ")` for any integer. */
  function Grouped(v: int): string {
    if v < 0 then "-" + GroupNat(-v) else GroupNat(v)
  }

  /** The decimal digits of a number of at least 1000 are those of its thousands followed by
      its last three digits. */
  lemma NatToStringThousands(n: nat)
    requires n >= 1000
    ensures NatToString(n) == NatToString(n / 1000) + Digit3(n % 1000)
  {
    var a, b, c := n / 10, n / 100, n / 1000;
    ThousandsDigits(n);
    var d3 := [DigitChar(b % 10), DigitChar(a % 10), DigitChar(n % 10)];
    assert Digit3(n % 1000) == d3;
    assert NatToString(n) == NatToString(a) + [DigitChar(n % 10)];
    assert NatToString(a) == NatToString(b) + [DigitChar(a % 10)];
    assert NatToString(b) == NatToString(c) + [DigitChar(b % 10)];
    assert NatToString(c) + [DigitChar(b % 10)] + [DigitChar(a % 10)] + [DigitChar(n % 10)] == NatToString(c) + d3;
  }

  /** Dropping the last digit twice more reaches the thousands, and the last three digits are
      those of the number. */
  lemma ThousandsDigits(n: nat)
    requires n >= 1000
    ensures n / 10 >= 10 && n / 100 >= 10
    ensures n / 10 / 10 == n / 100 && n / 100 / 10 == n / 1000
    ensures n % 1000 / 100 == n / 100 % 10 && n % 1000 / 10 % 10 == n / 10 % 10 && n % 1000 % 10 == n % 10
  {
    var q, r := n / 1000, n % 1000;
    var x, y, z := r / 100, r / 10 % 10, r % 10;
    assert r == 100 * x + 10 * y + z;
    assert n == 10 * (100 * q + 10 * x + y) + z;
    assert n / 10 == 100 * q + 10 * x + y;
    assert n / 10 == 10 * (10 * q + x) + y;
    assert n / 100 == 10 * q + x;
  }

  lemma Digit3NoSpace(d: nat)
    requires d < 1000
    ensures RemoveChar(Digit3(d), ' ') == Digit3(d)
  {
    var s := Digit3(d);
    assert s == [s[0]] + [s[1]] + [s[2]];
    RemoveCharAppend([s[0]] + [s[1]], [s[2]], ' ');
    RemoveCharAppend([s[0]], [s[1]], ' ');
  }

  lemma {:induction false} DigitsNoSpace(s: string)
    requires AllDigits(s)
    ensures RemoveChar(s, ' ') == s
    decreases |s|
  {
    if |s| > 0 {
      DigitsNoSpace(s[1..]);
      assert AllDigits(s[1..]);
      assert s == [s[0]] + s[1..];
      RemoveCharAppend([s[0]], s[1..], ' ');
    }
  }

  /** Dropping the separators gives back `str(n)`. */
  lemma {:induction false} GroupNatDigits(n: nat)
    ensures RemoveChar(GroupNat(n), ' ') == NatToString(n)
    decreases n
  {
    if n < 1000 {
      DigitsNoSpace(NatToString(n));
    } else {
      GroupNatDigits(n / 1000);
      NatToStringThousands(n);
      Digit3NoSpace(n % 1000);
      RemoveCharAppend(GroupNat(n / 1000) + " ", Digit3(n % 1000), ' ');
      RemoveCharAppend(GroupNat(n / 1000), " ", ' ');
    }
  }

  /** There is one separator per complete group of three digits after the first digit. */
  lemma {:induction false} GroupNatLength(n: nat)
    ensures |GroupNat(n)| == |NatToString(n)| + (|NatToString(n)| - 1) / 3
    decreases n
  {
    if n < 1000 {
      ShortNatToString(n);
    } else {
      GroupNatLength(n / 1000);
      NatToStringThousands(n);
      var l := |NatToString(n / 1000)|;
      assert |NatToString(n)| == l + 3;
      assert |GroupNat(n)| == |GroupNat(n / 1000)| + 4;
      assert (l + 3 - 1) / 3 == (l - 1) / 3 + 1;
    }
  }

  lemma ShortNatToString(n: nat)
    requires n < 1000
    ensures |NatToString(n)| <= 3
  {
    if n >= 10 {
      assert |NatToString(n)| == |NatToString(n / 10)| + 1;
      if n / 10 >= 10 {
        assert |NatToString(n / 10)| == |NatToString(n / 100)| + 1;
        assert n / 100 < 10;
      }
    }
  }

  /** The grouped form of any integer reads back as `str(v)` once its spaces are dropped. */
  lemma GroupedDigits(v: int)
    ensures RemoveChar(Grouped(v), ' ') == IntToString(v)
  {
    if v < 0 {
      GroupNatDigits(-v);
      RemoveCharAppend("-", GroupNat(-v), ' ');
    } else {
      GroupNatDigits(v);
    }
  }

  /** Python's `round` on a number: to the nearest integer, ties to the even one. */
  function RoundHalfEven(x: real): (n: int)
    ensures x - 0.5 <= n as real <= x + 0.5
    ensures n as real - x == 0.5 || x - n as real == 0.5 ==> n % 2 == 0
  {
    var f := x.Floor;
    var d := x - f as real;
    if d < 0.5 then f
    else if d > 0.5 then f + 1
    else if f % 2 == 0 then f else f + 1
  }

  /** `report_fmt.format_money`: missing is a dash, otherwise the rounded value grouped. */
  function FormatMoney(x: Option<real>): (r: string)
    ensures x.None? <==> r == "—"
  {
    if x.None? then "—" else Grouped(RoundHalfEven(x.value))
  }

  /** An integral amount is printed as its own digits, grouped. */
  lemma FormatMoneyIntegral(v: int)
    ensures RemoveChar(FormatMoney(Some(v as real)), ' ') == IntToString(v)
  {
    assert RoundHalfEven(v as real) == v;
    GroupedDigits(v);
  }

  // ---------------------------------------------------------------------
  // Badges
  // ---------------------------------------------------------------------

  /** The score light: green from 85, yellow from 70, orange from 55, red below. */
  function BadgeScore(score: int): string {
    if score >= 85 then "🟢"
    else if score >= 70 then "🟡"
    else if score >= 55 then "🟠"
    else "🔴"
  }

  /** How good a score light is, red lowest. */
  function ScoreRank(b: string): nat {
    if b == "🟢" then 3 else if b == "🟡" then 2 else if b == "🟠" then 1 else 0
  }

  /** Each light is given on exactly its band of scores. */
  lemma BadgeScoreBands(score: int)
    ensures BadgeScore(score) == "🟢" <==> score >= 85
    ensures BadgeScore(score) == "🟡" <==> 70 <= score < 85
    ensures BadgeScore(score) == "🟠" <==> 55 <= score < 70
    ensures BadgeScore(score) == "🔴" <==> score < 55
  {
  }

  /** A higher score never gets a worse light. */
  lemma BadgeScoreMonotone(s1: int, s2: int)
    requires s1 <= s2
    ensures ScoreRank(BadgeScore(s1)) <= ScoreRank(BadgeScore(s2))
  {
  }

  /** The profit badge: none without a maximum profit, a diamond for a large and safe profit,
      then fire, tick, yellow and stop by the maximum alone. */
  function BadgeProfit(pmin: Option<int>, pmax: Option<int>): string {
    if pmax.None? then "⚪"
    else if pmax.value >= 10000 && OrElse(pmin, 0) >= 3000 then "💎"
    else if pmax.value >= 7000 then "🔥"
    else if pmax.value >= 3000 then "✅"
    else if pmax.value > 0 then "🟡"
    else "⛔"
  }

  /** How good a profit badge is, the stop sign lowest. */
  function ProfitRank(b: string): nat {
    if b == "💎" then 5 else if b == "🔥" then 4 else if b == "✅" then 3
    else if b == "🟡" then 2 else if b == "⛔" then 1 else 0
  }

  /** Each profit badge is given on exactly its condition. */
  lemma BadgeProfitCases(pmin: Option<int>, pmax: Option<int>)
    ensures BadgeProfit(pmin, pmax) == "⚪" <==> pmax.None?
    ensures BadgeProfit(pmin, pmax) == "💎" <==> pmax.Some? && pmax.value >= 10000 && OrElse(pmin, 0) >= 3000
    ensures BadgeProfit(pmin, pmax) == "🔥" <==>
      pmax.Some? && pmax.value >= 7000 && !(pmax.value >= 10000 && OrElse(pmin, 0) >= 3000)
    ensures BadgeProfit(pmin, pmax) == "✅" <==> pmax.Some? && 3000 <= pmax.value < 7000
    ensures BadgeProfit(pmin, pmax) == "🟡" <==> pmax.Some? && 0 < pmax.value < 3000
    ensures BadgeProfit(pmin, pmax) == "⛔" <==> pmax.Some? && pmax.value <= 0
  {
  }

  /** More profit, at either end of the range, never gets a worse badge. */
  lemma BadgeProfitMonotone(min1: int, max1: int, min2: int, max2: int)
    requires min1 <= min2 && max1 <= max2
    ensures ProfitRank(BadgeProfit(Some(min1), Some(max1))) <= ProfitRank(BadgeProfit(Some(min2), Some(max2)))
  {
  }

  /** The price badge, with the 0.90 and 1.05 factors compared exactly by cross-multiplication. */
  function BadgePrice(price: Option<int>, p25: Option<int>, p50: Option<int>, p75: Option<int>): string {
    if price.None? || p50.None? then "⚪"
    else if p25.Some? && price.value <= p25.value then "🟢 ниже p25"
    else if 100 * price.value <= 90 * p50.value then "🟢 ниже рынка"
    else if 100 * price.value <= 105 * p50.value then "🟡 около рынка"
    else if p75.Some? && price.value <= p75.value then "🟠 выше рынка"
    else "🔴 сильно выше"
  }

  /** How favourable a price badge is, "far above" lowest. */
  function PriceRank(b: string): nat {
    if b == "🟢 ниже p25" then 4 else if b == "🟢 ниже рынка" then 3 else if b == "🟡 около рынка" then 2
    else if b == "🟠 выше рынка" then 1 else 0
  }

  /** Without a price or a median there is no judgement, and only then. */
  lemma BadgePriceUnknown(price: Option<int>, p25: Option<int>, p50: Option<int>, p75: Option<int>)
    ensures BadgePrice(price, p25, p50, p75) == "⚪" <==> price.None? || p50.None?
  {
  }

  /** Against the same market a cheaper lot never gets a less favourable price badge. */
  lemma BadgePriceMonotone(price1: int, price2: int, p25: Option<int>, p50: int, p75: Option<int>)
    requires price1 <= price2
    ensures PriceRank(BadgePrice(Some(price2), p25, Some(p50), p75))
         <= PriceRank(BadgePrice(Some(price1), p25, Some(p50), p75))
  {
  }

  // ---------------------------------------------------------------------
  // Short links
  // ---------------------------------------------------------------------

  /** The link without its scheme, cut to 57 characters and an ellipsis when above 60. */
  function ShortUrl(url: string): (r: string)
    ensures |r| <= 60
  {
    var u := ReplaceAll(ReplaceAll(url, "https://", ""), "http://", "");
    if |u| > 60 then u[..57] + "…" else u
  }

  /** A long link keeps its first 57 characters and gains the ellipsis; a short one is kept. */
  lemma ShortUrlCut(url: string)
    ensures var u := ReplaceAll(ReplaceAll(url, "https://", ""), "http://", "");
      var r := ShortUrl(url);
      (|u| > 60 ==> |r| == 58 && r[..57] == u[..57] && r[57] == '…')
      && (|u| <= 60 ==> r == u)
  {
  }

  /** A link is shown without its scheme: either scheme is removed when the rest of the link
      repeats neither. */
  lemma ShortUrlDropsScheme(scheme: string, rest: string)
    requires scheme == "https://" || scheme == "http://"
    requires !Contains(rest, "https://") && !Contains(rest, "http://")
    ensures |rest| <= 60 ==> ShortUrl(scheme + rest) == rest
  {
    if scheme == "https://" {
      ReplaceLeading("https://", rest);
    } else {
      HttpNoHttps(rest);
      ReplaceAbsent(scheme + rest, "https://", "");
      ReplaceLeading("http://", rest);
    }
    ReplaceAbsent(rest, "http://", "");
  }

  lemma HttpNoHttps(rest: string)
    requires !Contains(rest, "https://")
    ensures !Contains("http://" + rest, "https://")
  {
    var s6 := ['/'] + rest;
    NotContainsCons('/', rest);
    var s5 := ['/'] + s6;
    NotContainsCons('/', s6);
    var s4 := [':'] + s5;
    NotContainsCons(':', s5);
    var s3 := ['p'] + s4;
    NotContainsCons('p', s4);
    var s2 := ['t'] + s3;
    NotContainsCons('t', s3);
    var s1 := ['t'] + s2;
    NotContainsCons('t', s2);
    var s0 := ['h'] + s1;
    if |s0| >= 8 {
      assert s0[..8][4] == ':';
    }
    assert !StartsWith(s0, "https://");
    assert s0[1..] == s1;
    assert s0 == "http://" + rest;
  }

  /** A text that does not start with an "h" contains "https://" only if its tail does. */
  lemma NotContainsCons(c: char, t: string)
    requires c != 'h' && !Contains(t, "https://")
    ensures !Contains([c] + t, "https://")
  {
    var s := [c] + t;
    assert s[0] != "https://"[0];
    assert s[1..] == t;
  }

  // ---------------------------------------------------------------------
  // Splitting into messages
  // ---------------------------------------------------------------------

  /** All the parts one after another. */
  function Concat(ss: seq<string>): string {
    if |ss| == 0 then "" else Concat(ss[..|ss| - 1]) + ss[|ss| - 1]
  }

  lemma ConcatSnoc(ss: seq<string>, s: string)
    ensures Concat(ss + [s]) == Concat(ss) + s
  {
    assert (ss + [s])[..|ss|] == ss;
  }

  /** Every message is non-empty and within the limit. */
  predicate Fits(out: seq<string>, limit: int) {
    forall i :: 0 <= i < |out| ==> 0 < |out[i]| <= limit
  }

  // ---------------------------------------------------------------------
  // The packing `split_html_messages` performs, stated on units
  // ---------------------------------------------------------------------

  /** What a message is made of: a whole part, or a piece of a part longer than the limit. */
  datatype Unit = Whole(text: string) | Piece(text: string)

  /** The text of a run of units. */
  function UnitText(us: seq<Unit>): string {
    if |us| == 0 then "" else UnitText(us[..|us| - 1]) + us[|us| - 1].text
  }

  /** The message each group of units becomes. */
  function GroupTexts(gs: seq<seq<Unit>>): (r: seq<string>)
    ensures |r| == |gs|
    ensures forall k :: 0 <= k < |gs| ==> r[k] == UnitText(gs[k])
  {
    seq(|gs|, k requires 0 <= k < |gs| => UnitText(gs[k]))
  }

  function Flatten(gs: seq<seq<Unit>>): seq<Unit> {
    if |gs| == 0 then [] else Flatten(gs[..|gs| - 1]) + gs[|gs| - 1]
  }

  /** `p[:limit]`, then `rest[:limit]` until nothing is left: each piece a message of its own. */
  function PieceGroups(p: string, limit: int): seq<seq<Unit>>
    requires limit >= 1
    decreases |p|
  {
    if |p| == 0 then []
    else if |p| <= limit then [[Piece(p)]]
    else [[Piece(p[..limit])]] + PieceGroups(p[limit..], limit)
  }

  /** The units one part contributes: none when empty, itself when it fits, else its pieces. */
  function UnitsOf(p: string, limit: int): seq<Unit>
    requires limit >= 1
  {
    if |p| == 0 then [] else if |p| <= limit then [Whole(p)] else Flatten(PieceGroups(p, limit))
  }

  /** The units of all the parts, in order. */
  function Units(parts: seq<string>, limit: int): seq<Unit>
    requires limit >= 1
  {
    if |parts| == 0 then [] else Units(parts[..|parts| - 1], limit) + UnitsOf(parts[|parts| - 1], limit)
  }

  /** The messages already sent and the buffer, as groups of units. */
  datatype Packing = Packing(sent: seq<seq<Unit>>, buf: seq<Unit>)

  /** One turn of the loop over the parts. */
  function PackStep(st: Packing, p: string, limit: int): Packing
    requires limit >= 1
  {
    if |p| == 0 then st
    else if |UnitText(st.buf)| + |p| <= limit then Packing(st.sent, st.buf + [Whole(p)])
    else
      var sent := if |st.buf| > 0 then st.sent + [st.buf] else st.sent;
      if |p| > limit then Packing(sent + PieceGroups(p, limit), []) else Packing(sent, [Whole(p)])
  }

  function Pack(parts: seq<string>, limit: int): Packing
    requires limit >= 1
  {
    if |parts| == 0 then Packing([], []) else PackStep(Pack(parts[..|parts| - 1], limit), parts[|parts| - 1], limit)
  }

  /** The messages as groups of units, the last buffer flushed when non-empty. */
  function Grouping(parts: seq<string>, limit: int): seq<seq<Unit>>
    requires limit >= 1
  {
    var st := Pack(parts, limit);
    if |st.buf| > 0 then st.sent + [st.buf] else st.sent
  }

  /** The messages `split_html_messages(parts, limit)` returns. */
  function Messages(parts: seq<string>, limit: int): seq<string>
    requires limit >= 1
  {
    GroupTexts(Grouping(parts, limit))
  }

  /** A group that can be a message: non-empty units, within the limit, and a piece of a cut
      part alone. */
  predicate GoodGroup(g: seq<Unit>, limit: int) {
    |g| > 0 && |UnitText(g)| <= limit
    && (forall j :: 0 <= j < |g| ==> |g[j].text| > 0)
    && (forall j :: 0 <= j < |g| && g[j].Piece? ==> |g| == 1)
  }

  predicate GoodPacking(st: Packing, limit: int) {
    (forall k :: 0 <= k < |st.sent| ==> GoodGroup(st.sent[k], limit))
    && (|st.buf| > 0 ==> GoodGroup(st.buf, limit))
    && (forall j :: 0 <= j < |st.buf| ==> st.buf[j].Whole?)
  }

  lemma UnitTextSnoc(us: seq<Unit>, u: Unit)
    ensures UnitText(us + [u]) == UnitText(us) + u.text
  {
    assert (us + [u])[..|us|] == us;
  }

  lemma UnitTextOne(u: Unit)
    ensures UnitText([u]) == u.text
  {
    UnitTextSnoc([], u);
    assert [] + [u] == [u];
  }

  lemma {:induction false} FlattenAppend(a: seq<seq<Unit>>, b: seq<seq<Unit>>)
    ensures Flatten(a + b) == Flatten(a) + Flatten(b)
    decreases |b|
  {
    if |b| == 0 {
      assert a + b == a;
    } else {
      assert (a + b)[..|a + b| - 1] == a + b[..|b| - 1];
      assert b == b[..|b| - 1] + [b[|b| - 1]];
      FlattenAppend(a, b[..|b| - 1]);
    }
  }

  lemma FlattenSnoc(a: seq<seq<Unit>>, g: seq<Unit>)
    ensures Flatten(a + [g]) == Flatten(a) + g
  {
    assert (a + [g])[..|a|] == a;
  }

  lemma GroupTextsAppend(a: seq<seq<Unit>>, b: seq<seq<Unit>>)
    ensures GroupTexts(a + b) == GroupTexts(a) + GroupTexts(b)
  {
  }

  /** A group holding one piece of a cut part, within the limit. */
  predicate PieceGroup(g: seq<Unit>, limit: int) {
    |g| == 1 && g[0].Piece? && GoodGroup(g, limit)
  }

  /** The pieces of a part are single-piece groups that fit, all but the last exactly
      `limit` long. */
  lemma {:induction false} PieceGroupsShape(p: string, limit: int)
    requires limit >= 1
    ensures forall k :: 0 <= k < |PieceGroups(p, limit)| ==> PieceGroup(PieceGroups(p, limit)[k], limit)
    ensures forall k :: 0 <= k < |PieceGroups(p, limit)| - 1 ==> |UnitText(PieceGroups(p, limit)[k])| == limit
    decreases |p|
  {
    if |p| > 0 {
      var x := if |p| <= limit then p else p[..limit];
      UnitTextOne(Piece(x));
      assert PieceGroup([Piece(x)], limit);
      if |p| > limit {
        PieceGroupsShape(p[limit..], limit);
        var rest := PieceGroups(p[limit..], limit);
        assert PieceGroups(p, limit) == [[Piece(x)]] + rest;
      }
    }
  }

  /** The pieces spell the part. */
  lemma {:induction false} PieceGroupsSpell(p: string, limit: int)
    requires limit >= 1
    ensures UnitText(Flatten(PieceGroups(p, limit))) == p
    decreases |p|
  {
    if |p| > 0 {
      var x := if |p| <= limit then p else p[..limit];
      UnitTextOne(Piece(x));
      FlattenSnoc([], [Piece(x)]);
      assert [] + [[Piece(x)]] == [[Piece(x)]];
      if |p| > limit {
        var rest := PieceGroups(p[limit..], limit);
        assert PieceGroups(p, limit) == [[Piece(x)]] + rest;
        PieceGroupsSpell(p[limit..], limit);
        FlattenAppend([[Piece(x)]], rest);
        assert Flatten(PieceGroups(p, limit)) == [Piece(x)] + Flatten(rest);
        UnitTextAppend([Piece(x)], Flatten(rest));
        assert UnitText(Flatten(PieceGroups(p, limit))) == x + p[limit..];
        assert p == p[..limit] + p[limit..];
      }
    }
  }

  lemma {:induction false} UnitTextAppend(a: seq<Unit>, b: seq<Unit>)
    ensures UnitText(a + b) == UnitText(a) + UnitText(b)
    decreases |b|
  {
    if |b| == 0 {
      assert a + b == a;
    } else {
      var init, last := b[..|b| - 1], b[|b| - 1];
      assert b == init + [last];
      assert a + b == (a + init) + [last];
      UnitTextSnoc(a + init, last);
      UnitTextSnoc(init, last);
      UnitTextAppend(a, init);
      AppendAssoc(UnitText(a), UnitText(init), last.text);
    }
  }

  lemma PackSnoc(parts: seq<string>, i: nat, limit: int)
    requires limit >= 1 && i < |parts|
    ensures Pack(parts[..i + 1], limit) == PackStep(Pack(parts[..i], limit), parts[i], limit)
    ensures Units(parts[..i + 1], limit) == Units(parts[..i], limit) + UnitsOf(parts[i], limit)
  {
    assert parts[..i + 1][..i] == parts[..i];
  }

  /** One turn keeps every message a good group and the buffer made of whole parts. */
  lemma PackStepGood(st: Packing, p: string, limit: int)
    requires limit >= 1 && GoodPacking(st, limit)
    ensures GoodPacking(PackStep(st, p, limit), limit)
  {
    if |p| > 0 {
      if |UnitText(st.buf)| + |p| <= limit {
        var b := st.buf + [Whole(p)];
        UnitTextSnoc(st.buf, Whole(p));
        assert forall j :: 0 <= j < |b| ==> b[j] == if j < |st.buf| then st.buf[j] else Whole(p);
      } else {
        var sent := if |st.buf| > 0 then st.sent + [st.buf] else st.sent;
        assert forall k :: 0 <= k < |sent| ==> GoodGroup(sent[k], limit);
        if |p| > limit {
          PieceGroupsShape(p, limit);
          var all := sent + PieceGroups(p, limit);
          assert forall k :: 0 <= k < |all| ==> GoodGroup(all[k], limit);
        } else {
          UnitTextOne(Whole(p));
        }
      }
    }
  }

  /** One turn sends or buffers exactly the units of the part. */
  lemma PackStepUnits(st: Packing, p: string, limit: int)
    requires limit >= 1
    ensures var st' := PackStep(st, p, limit);
      Flatten(st'.sent) + st'.buf == Flatten(st.sent) + st.buf + UnitsOf(p, limit)
  {
    if |p| > 0 {
      if |UnitText(st.buf)| + |p| > limit {
        var sent := if |st.buf| > 0 then st.sent + [st.buf] else st.sent;
        if |st.buf| > 0 { FlattenSnoc(st.sent, st.buf); }
        assert Flatten(sent) == Flatten(st.sent) + st.buf;
        if |p| > limit {
          FlattenAppend(sent, PieceGroups(p, limit));
        }
      }
    }
  }

  lemma {:induction false} PackInvariant(parts: seq<string>, limit: int)
    requires limit >= 1
    ensures GoodPacking(Pack(parts, limit), limit)
    ensures Flatten(Pack(parts, limit).sent) + Pack(parts, limit).buf == Units(parts, limit)
    decreases |parts|
  {
    if |parts| > 0 {
      var init := parts[..|parts| - 1];
      PackInvariant(init, limit);
      PackStepGood(Pack(init, limit), parts[|parts| - 1], limit);
      PackStepUnits(Pack(init, limit), parts[|parts| - 1], limit);
    }
  }

  /** The messages of `split_html_messages`, read as groups of units, are the units of the
      parts in order: every part that fits comes whole, and only a part longer than the limit is
      cut. Each message is either a run of whole parts within the limit or one piece of a cut
      part on its own. */
  lemma MessagesKeepParts(parts: seq<string>, limit: int)
    requires limit >= 1
    ensures var gs := Grouping(parts, limit);
      Flatten(gs) == Units(parts, limit)
      && (forall k :: 0 <= k < |gs| ==> GoodGroup(gs[k], limit))
      && Messages(parts, limit) == GroupTexts(gs)
  {
    PackInvariant(parts, limit);
    var st := Pack(parts, limit);
    var gs := Grouping(parts, limit);
    if |st.buf| > 0 {
      assert gs == st.sent + [st.buf];
      FlattenSnoc(st.sent, st.buf);
      assert forall k :: 0 <= k < |gs| ==> gs[k] == if k < |st.sent| then st.sent[k] else st.buf;
    } else {
      assert gs == st.sent;
      assert st.buf == [];
      assert Flatten(st.sent) + st.buf == Flatten(st.sent);
    }
  }

  /** A part that fits is one whole unit, never cut; a longer part becomes its pieces, each
      within the limit, which spell it. */
  lemma PartUnits(p: string, limit: int)
    requires limit >= 1 && |p| > 0
    ensures |p| <= limit ==> UnitsOf(p, limit) == [Whole(p)]
    ensures |p| > limit ==> UnitText(UnitsOf(p, limit)) == p
    ensures |p| > limit ==>
      forall j :: 0 <= j < |UnitsOf(p, limit)| ==> UnitsOf(p, limit)[j].Piece? && |UnitsOf(p, limit)[j].text| <= limit
  {
    if |p| > limit {
      PieceGroupsShape(p, limit);
      PieceGroupsSpell(p, limit);
      PiecesFlat(PieceGroups(p, limit), limit);
    }
  }

  /** Two parts that fit together make one message. */
  lemma TwoPartsOneMessage(a: string, b: string, limit: int)
    requires 0 < |a| && 0 < |b| && |a| + |b| <= limit
    ensures Messages([a, b], limit) == [a + b]
  {
    var parts := [a, b];
    assert parts[..1] == [a] && parts[..1][..0] == [];
    UnitTextOne(Whole(a));
    UnitTextSnoc([Whole(a)], Whole(b));
    assert [Whole(a)] + [Whole(b)] == [Whole(a), Whole(b)];
    assert Pack([a], limit) == Packing([], [Whole(a)]);
    assert Pack(parts, limit) == Packing([], [Whole(a), Whole(b)]);
    assert Grouping(parts, limit) == [[Whole(a), Whole(b)]];
  }

  /** Two parts that each fit but not together go out as two messages, neither of them cut. */
  lemma TwoPartsTwoMessages(a: string, b: string, limit: int)
    requires 0 < |a| <= limit && 0 < |b| <= limit && |a| + |b| > limit
    ensures Messages([a, b], limit) == [a, b]
  {
    var parts := [a, b];
    assert parts[..1] == [a] && parts[..1][..0] == [];
    UnitTextOne(Whole(a));
    UnitTextOne(Whole(b));
    assert Pack([a], limit) == Packing([], [Whole(a)]);
    assert Pack(parts, limit) == Packing([[Whole(a)]], [Whole(b)]);
    assert Grouping(parts, limit) == [[Whole(a)], [Whole(b)]];
  }

  /** `["<b>a</b>", "<b>b</b>"]` under a limit of 10 is sent as the two parts, not cut at the
      limit. */
  lemma TwoTagsApart()
    ensures Messages(["<b>a</b>", "<b>b</b>"], 10) == ["<b>a</b>", "<b>b</b>"]
  {
    TwoPartsTwoMessages("<b>a</b>", "<b>b</b>", 10);
  }

  lemma {:induction false} PiecesFlat(gs: seq<seq<Unit>>, limit: int)
    requires forall k :: 0 <= k < |gs| ==> PieceGroup(gs[k], limit)
    ensures forall j :: 0 <= j < |Flatten(gs)| ==> Flatten(gs)[j].Piece? && |Flatten(gs)[j].text| <= limit
    decreases |gs|
  {
    if |gs| > 0 {
      PiecesFlat(gs[..|gs| - 1], limit);
      var g := gs[|gs| - 1];
      UnitTextOne(g[0]);
      assert g == [g[0]];
    }
  }

  /** The cutting of a part longer than the limit into messages of `limit` characters, the
      last one holding what remains. */
  method CutLongPart(out0: seq<string>, p: string, limit: int) returns (out: seq<string>)
    requires 1 <= limit < |p| && Fits(out0, limit)
    ensures Fits(out, limit) && |out| > |out0|
    ensures Concat(out) == Concat(out0) + p
    ensures out == out0 + GroupTexts(PieceGroups(p, limit))
  {
    PieceStep(out0, p, limit, limit);
    PieceGroupsStep(out0, p, limit);
    out := out0 + [p[..limit]];
    var rest := p[limit..];
    while |rest| > 0
      invariant Concat(out) + rest == Concat(out0) + p
      invariant Fits(out, limit) && |out| > |out0|
      invariant out + GroupTexts(PieceGroups(rest, limit)) == out0 + GroupTexts(PieceGroups(p, limit))
      decreases |rest|
    {
      var k := if |rest| < limit then |rest| else limit;
      PieceStep(out, rest, k, limit);
      PieceGroupsStep(out, rest, limit);
      out := out + [rest[..k]];
      rest := rest[k..];
    }
  }

  /** Sending the next piece as a message leaves the pieces of what is left to come. */
  lemma PieceGroupsStep(out: seq<string>, rest: string, limit: int)
    requires limit >= 1 && |rest| > 0
    ensures var k := if |rest| < limit then |rest| else limit;
      (out + [rest[..k]]) + GroupTexts(PieceGroups(rest[k..], limit))
        == out + GroupTexts(PieceGroups(rest, limit))
  {
    var k := if |rest| < limit then |rest| else limit;
    PieceGroupsCons(rest, limit);
    var g := GroupTexts(PieceGroups(rest[k..], limit));
    assert (out + [rest[..k]]) + g == out + ([rest[..k]] + g);
  }

  /** The first piece of a part is its first `limit` characters (all of it when shorter). */
  lemma PieceGroupsCons(p: string, limit: int)
    requires limit >= 1 && |p| > 0
    ensures var k := if |p| < limit then |p| else limit;
      GroupTexts(PieceGroups(p, limit)) == [p[..k]] + GroupTexts(PieceGroups(p[k..], limit))
  {
    var k := if |p| < limit then |p| else limit;
    var x := p[..k];
    UnitTextOne(Piece(x));
    assert GroupTexts([[Piece(x)]]) == [x];
    var rest := PieceGroups(p[k..], limit);
    if |p| <= limit {
      assert x == p;
      assert |p[k..]| == 0;
      assert rest == [];
      assert PieceGroups(p, limit) == [[Piece(x)]];
      assert GroupTexts(rest) == [];
    } else {
      assert PieceGroups(p, limit) == [[Piece(x)]] + rest;
      GroupTextsAppend([[Piece(x)]], rest);
    }
  }

  /** Sending the first `k` characters of `rest` as a message of its own keeps the text and
      the fit. */
  lemma PieceStep(out: seq<string>, rest: string, k: nat, limit: int)
    requires 0 < k <= |rest| && k <= limit && Fits(out, limit)
    ensures Concat(out + [rest[..k]]) + rest[k..] == Concat(out) + rest
    ensures Fits(out + [rest[..k]], limit)
  {
    ConcatSnoc(out, rest[..k]);
    AppendSplit(Concat(out), rest, k);
  }

  lemma AppendSplit<T>(a: seq<T>, b: seq<T>, k: nat)
    requires k <= |b|
    ensures (a + b[..k]) + b[k..] == a + b
  {
    assert b == b[..k] + b[k..];
  }

  lemma PrefixStep(parts: seq<string>, i: nat)
    requires i < |parts|
    ensures Concat(parts[..i + 1]) == Concat(parts[..i]) + parts[i]
    ensures |Concat(parts[..i])| <= |Concat(parts[..i + 1])|
  {
    assert parts[..i + 1] == parts[..i] + [parts[i]];
    ConcatSnoc(parts[..i], parts[i]);
  }

  /** Sending the buffer as a message keeps the text and the fit. */
  lemma FlushStep(out: seq<string>, buf: string, limit: int)
    requires 0 < |buf| <= limit && Fits(out, limit)
    ensures Concat(out + [buf]) == Concat(out) + buf
    ensures Fits(out + [buf], limit)
  {
    ConcatSnoc(out, buf);
  }

  lemma AppendEmpty<T>(a: seq<T>, e: seq<T>)
    requires |e| == 0
    ensures a + e == a && e + a == a
  {
  }

  lemma AppendAssoc<T>(a: seq<T>, b: seq<T>, c: seq<T>)
    ensures (a + b) + c == a + (b + c)
  {
  }

  /** `split_html_messages`: packs the parts greedily into messages of at most `limit`
      characters, cutting a part longer than the limit into pieces. The text is kept whole and
      in order, and a report that fits in one message is sent as one. */
  method SplitHtmlMessages(parts: seq<string>, limit: int) returns (out: seq<string>)
    requires limit >= 1
    ensures out == Messages(parts, limit)
    ensures Fits(out, limit)
    ensures Concat(out) == Concat(parts)
    ensures 0 < |Concat(parts)| <= limit ==> out == [Concat(parts)]
    ensures |Concat(parts)| == 0 ==> out == []
  {
    out := [];
    var buf := "";
    ghost var st := Packing([], []);
    for i := 0 to |parts|
      invariant Concat(out) + buf == Concat(parts[..i])
      invariant Fits(out, limit) && |buf| <= limit
      invariant |Concat(parts[..i])| <= limit ==> out == [] && buf == Concat(parts[..i])
      invariant st == Pack(parts[..i], limit) && Tracks(out, buf, st)
    {
      var p := parts[i];
      PrefixStep(parts, i);
      PackSnoc(parts, i, limit);
      TracksStep(out, buf, st, p, limit);
      if |p| == 0 {
        AppendEmpty(Concat(out) + buf, p);
      } else if |buf| + |p| <= limit {
        AppendAssoc(Concat(out), buf, p);
        buf := buf + p;
      } else {
        out, buf := StartMessage(out, buf, p, limit);
      }
      st := PackStep(st, p, limit);
    }
    assert parts[..|parts|] == parts;
    TracksFlush(out, buf, st);
    if |buf| > 0 {
      FlushStep(out, buf, limit);
      if out == [] {
        AppendEmpty(buf, "");
      }
      out := out + [buf];
    } else {
      AppendEmpty(Concat(out), buf);
    }
  }

  /** The turn for a part that does not fit beside the buffer: the buffer goes out as a
      message, then the part is cut into pieces when longer than the limit, else it starts the
      new buffer. */
  method StartMessage(out0: seq<string>, buf0: string, p: string, limit: int)
      returns (out: seq<string>, buf: string)
    requires limit >= 1 && |p| > 0 && |buf0| <= limit && |buf0| + |p| > limit && Fits(out0, limit)
    ensures Concat(out) + buf == (Concat(out0) + buf0) + p
    ensures Fits(out, limit) && |buf| <= limit
    ensures var out1 := if |buf0| > 0 then out0 + [buf0] else out0;
      if |p| > limit then out == out1 + GroupTexts(PieceGroups(p, limit)) && buf == ""
      else out == out1 && buf == p
  {
    out := out0;
    if |buf0| > 0 {
      FlushStep(out, buf0, limit);
      out := out + [buf0];
    } else {
      AppendEmpty(Concat(out), buf0);
    }
    if |p| > limit {
      out := CutLongPart(out, p, limit);
      buf := "";
      AppendEmpty(Concat(out), buf);
    } else {
      buf := p;
    }
  }

  /** The messages sent and the buffer held are the texts of the packing's groups. */
  ghost predicate Tracks(out: seq<string>, buf: string, st: Packing) {
    out == GroupTexts(st.sent) && buf == UnitText(st.buf) && (|buf| > 0 <==> |st.buf| > 0)
  }

  /** Flushing a non-empty buffer sends the text of the buffered group. */
  lemma TracksFlush(out: seq<string>, buf: string, st: Packing)
    requires Tracks(out, buf, st)
    ensures (if |buf| > 0 then out + [buf] else out)
      == GroupTexts(if |st.buf| > 0 then st.sent + [st.buf] else st.sent)
  {
    GroupTextsAppend(st.sent, [st.buf]);
  }

  /** Each turn of the loop over `parts` performs the packing step on the texts. */
  lemma TracksStep(out: seq<string>, buf: string, st: Packing, p: string, limit: int)
    requires limit >= 1 && Tracks(out, buf, st)
    ensures |p| == 0 ==> Tracks(out, buf, PackStep(st, p, limit))
    ensures |p| > 0 && |buf| + |p| <= limit ==> Tracks(out, buf + p, PackStep(st, p, limit))
    ensures |p| > 0 && |buf| + |p| > limit ==>
      var out1 := if |buf| > 0 then out + [buf] else out;
      if |p| > limit then Tracks(out1 + GroupTexts(PieceGroups(p, limit)), "", PackStep(st, p, limit))
      else Tracks(out1, p, PackStep(st, p, limit))
  {
    if |p| > 0 {
      if |buf| + |p| <= limit {
        UnitTextSnoc(st.buf, Whole(p));
      } else {
        TracksFlush(out, buf, st);
        var sent := if |st.buf| > 0 then st.sent + [st.buf] else st.sent;
        if |p| > limit {
          GroupTextsAppend(sent, PieceGroups(p, limit));
        } else {
          UnitTextOne(Whole(p));
        }
      }
    }
  }

}
