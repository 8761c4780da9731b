/** Card extraction from an Avito catalogue page. The HTML parse and the XPath queries are not
    modelled: each matching container node arrives as a `CardNode` holding its query results. */
module Parser {
  import opened Text

  /** The values a card's `raw` dictionary holds. */
  datatype Value = Null | Bool(b: bool) | Int(i: int) | Str(s: string)

  type Raw = map<string, Value>

  /** `ParsedCard`. */
  datatype ParsedCard = ParsedCard(
    externalId: Option<string>,
    url: string,
    title: string,
    price: Option<int>,
    city: Option<string>,
    description: Option<string>,
    sellerType: Option<string>,
    photosCount: Option<int>,
    status: string,
    raw: Raw)

  /** One `div[@data-marker='item' and @data-item-id]` node, as the results of the queries run on it. */
  datatype CardNode = CardNode(
    itemIdAttr: string,           // @data-item-id
    names: seq<string>,           // .//*[@itemprop='name'], as text content
    hrefs: seq<string>,           // .//a[@href]/@href
    priceContent: seq<string>,    // item-price .//*[@itemprop='price' and @content]/@content
    priceTexts: seq<string>,      // item-price .//text()
    locationTexts: seq<string>,   // item-location .//text()
    addressTexts: seq<string>,    // item-address .//text()
    descContent: seq<string>,     // .//*[@itemprop='description']/@content
    descTexts: seq<string>)       // .//*[@itemprop='description']//text()

  /** The two decoders `_extract_embedded_by_item_id` calls: `html.unescape`, and the
      `unicode_escape` decoding of a string's UTF-8 bytes (`None` where it raises). */
  datatype Decoders = Decoders(unescape: string -> string, unicodeEscape: string -> Option<string>)

  // ---------------------------------------------------------------------
  // _norm and _first_text
  // ---------------------------------------------------------------------

  /** `_norm`: the words of the text joined by single spaces. */
  function Norm(s: Option<string>): string {
    Join(SplitWs(OrElse(s, "")), " ")
  }

  /** `_first_text`: the first node's text, if there is a node. */
  function FirstText(nodes: seq<string>): Option<string> {
    if |nodes| == 0 then None else Some(nodes[0])
  }

  /** Python's `a or b` on optional strings: `b` when `a` is `None` or empty. */
  function OrText(a: Option<string>, b: Option<string>): Option<string> {
    if a.Some? && a.value != "" then a else b
  }

  /** `x or None` for a string. */
  function NonEmptyOrNone(s: string): (r: Option<string>)
    ensures r.Some? <==> s != ""
  {
    if s == "" then None else Some(s)
  }

  lemma {:induction false} StripLeftWord(w: string, rest: string)
    requires IsWord(w)
    ensures StripLeft(w + rest) == w + rest
  {
    assert (w + rest)[0] == w[0];
  }

  lemma {:induction false} TakeWordJoin(w: string, rest: string)
    requires IsWord(w)
    requires rest == "" || IsSpace(rest[0])
    ensures TakeWord(w + rest) == w
  {
    if |w| > 1 {
      assert (w + rest)[1..] == w[1..] + rest;
      TakeWordJoin(w[1..], rest);
    } else {
      assert (w + rest)[1..] == rest;
    }
  }

  /** A word followed by nothing or by whitespace is the first word of the split. */
  lemma SplitWsWord(w: string, rest: string)
    requires IsWord(w)
    requires rest == "" || IsSpace(rest[0])
    ensures SplitWs(w + rest) == [w] + SplitWs(rest)
  {
    StripLeftWord(w, rest);
    TakeWordJoin(w, rest);
    assert (w + rest)[|w|..] == rest;
  }

  /** A leading space does not change the split. */
  lemma SplitWsSpace(x: string)
    ensures SplitWs(" " + x) == SplitWs(x)
  {
    assert (" " + x)[1..] == x;
    assert StripLeft(" " + x) == StripLeft(x);
  }

  lemma AppendEmpty<T>(s: seq<T>)
    ensures s + [] == s
  {
  }

  lemma Singleton<T>(s: seq<T>)
    requires |s| == 1
    ensures s == [s[0]] && [s[0]] + [] == s
  {
  }

  lemma HeadTail<T>(s: seq<T>)
    requires |s| > 0
    ensures s == [s[0]] + s[1..]
  {
  }

  lemma JoinCons(words: seq<string>)
    requires |words| > 1
    ensures Join(words, " ") == words[0] + (" " + Join(words[1..], " "))
  {
    assert words[0] + " " + Join(words[1..], " ") == words[0] + (" " + Join(words[1..], " "));
  }

  lemma SplitWsOne(words: seq<string>)
    requires |words| == 1 && IsWord(words[0])
    ensures SplitWs(Join(words, " ")) == words
  {
    SplitWsWord(words[0], "");
    AppendEmpty(words[0]);
    assert SplitWs("") == [];
    Singleton(words);
  }

  lemma SplitWsCons(words: seq<string>)
    requires |words| > 1 && IsWord(words[0])
    requires SplitWs(Join(words[1..], " ")) == words[1..]
    ensures SplitWs(Join(words, " ")) == words
  {
    var rest := Join(words[1..], " ");
    SplitWsWord(words[0], " " + rest);
    SplitWsSpace(rest);
    JoinCons(words);
    HeadTail(words);
  }

  /** `" ".join(words).split()` gives the words back. */
  lemma {:induction false} SplitWsJoin(words: seq<string>)
    requires forall j :: 0 <= j < |words| ==> IsWord(words[j])
    ensures SplitWs(Join(words, " ")) == words
  {
    if |words| == 1 {
      SplitWsOne(words);
    } else if |words| > 1 {
      assert forall j :: 0 <= j < |words| - 1 ==> words[1..][j] == words[j + 1];
      SplitWsJoin(words[1..]);
      SplitWsCons(words);
    }
  }

  lemma JoinStartsWithWord(words: seq<string>)
    requires |words| > 0 && forall j :: 0 <= j < |words| ==> IsWord(words[j])
    ensures |words[0]| > 0 && |Join(words, " ")| > 0 && Join(words, " ")[0] == words[0][0]
  {
    assert IsWord(words[0]);
  }

  /** `_norm` keeps the words of its input, so a second pass changes nothing. */
  lemma NormWords(s: Option<string>)
    ensures SplitWs(Norm(s)) == SplitWs(OrElse(s, ""))
    ensures Norm(Some(Norm(s))) == Norm(s)
  {
    SplitWsJoin(SplitWs(OrElse(s, "")));
  }

  /** Text without surrounding whitespace in which every whitespace character is a single
      space between two non-space characters. */
  predicate SingleSpaced(r: string) {
    (r == "" || (!IsSpace(r[0]) && !IsSpace(r[|r| - 1])))
    && forall i :: 0 <= i < |r| && IsSpace(r[i]) ==> r[i] == ' ' && 0 < i < |r| - 1 && !IsSpace(r[i + 1])
  }

  lemma {:induction false} JoinSingleSpaced(words: seq<string>)
    requires forall j :: 0 <= j < |words| ==> IsWord(words[j])
    ensures SingleSpaced(Join(words, " "))
  {
    if |words| > 1 {
      var w := words[0];
      var rest := Join(words[1..], " ");
      JoinSingleSpaced(words[1..]);
      JoinStartsWithWord(words[1..]);
      var r := w + " " + rest;
      assert Join(words, " ") == r;
      forall i | 0 <= i < |r| && IsSpace(r[i])
        ensures r[i] == ' ' && 0 < i < |r| - 1 && !IsSpace(r[i + 1])
      {
        if i > |w| {
          assert r[i] == rest[i - |w| - 1];
          if i + 1 < |r| {
            assert r[i + 1] == rest[i - |w|];
          }
        }
      }
      assert r[|r| - 1] == rest[|rest| - 1];
    }
  }

  /** `_norm` output has no leading, trailing or repeated whitespace. */
  lemma NormSingleSpaced(s: Option<string>)
    ensures SingleSpaced(Norm(s))
  {
    JoinSingleSpaced(SplitWs(OrElse(s, "")));
  }

  // ---------------------------------------------------------------------
  // _extract_url
  // ---------------------------------------------------------------------

  const SiteRoot := "https://www.avito.ru"

  /** `h.split("?")[0]`. */
  function BeforeQuery(h: string): (r: string)
    ensures forall i :: 0 <= i < |r| ==> r[i] != '?'
  {
    SplitOn(h, '?')[0]
  }

  /** `item_id` is truthy. */
  predicate HasId(itemId: Option<string>) {
    itemId.Some? && itemId.value != ""
  }

  predicate IsRelative(h: string) { StartsWith(h, "/") }

  predicate LinksItem(h: string, itemId: Option<string>) {
    IsRelative(h) && HasId(itemId) && Contains(h, itemId.value)
  }

  /** A relative link, one that also mentions the item when `needId`. */
  predicate Wanted(h: string, itemId: Option<string>, needId: bool) {
    IsRelative(h) && (needId ==> LinksItem(h, itemId))
  }

  /** The index of the first relative link (that mentions the item when `needId`). */
  function FirstLink(hrefs: seq<string>, itemId: Option<string>, needId: bool): (k: int)
    ensures -1 <= k < |hrefs|
    ensures k >= 0 ==> Wanted(hrefs[k], itemId, needId)
    ensures forall j :: 0 <= j < |hrefs| && (k < 0 || j < k) ==> !Wanted(hrefs[j], itemId, needId)
  {
    if |hrefs| == 0 then -1
    else if Wanted(hrefs[0], itemId, needId) then 0
    else
      var k := FirstLink(hrefs[1..], itemId, needId);
      if k < 0 then -1 else k + 1
  }

  /** The URL `_extract_url` settles on. */
  function CardUrl(hrefs: seq<string>, itemId: Option<string>): string {
    var k := FirstLink(hrefs, itemId, true);
    if HasId(itemId) && k >= 0 then SiteRoot + BeforeQuery(hrefs[k])
    else
      var j := FirstLink(hrefs, itemId, false);
      if j >= 0 then SiteRoot + BeforeQuery(hrefs[j]) else SiteRoot
  }

  /** `_extract_url`: the first relative link naming the item, else the first relative link,
      else the site root; the query part is cut off. */
  method ExtractUrl(hrefs: seq<string>, itemId: Option<string>) returns (url: string)
    ensures url == CardUrl(hrefs, itemId)
    ensures StartsWith(url, SiteRoot) && forall i :: 0 <= i < |url| ==> url[i] != '?'
  {
    CardUrlShape(hrefs, itemId);
    if HasId(itemId) {
      var k := FindLink(hrefs, itemId, true);
      if k >= 0 {
        return SiteRoot + BeforeQuery(hrefs[k]);
      }
    }
    var j := FindLink(hrefs, itemId, false);
    if j >= 0 {
      return SiteRoot + BeforeQuery(hrefs[j]);
    }
    url := SiteRoot;
  }

  /** One pass over the links for the first one wanted. */
  method FindLink(hrefs: seq<string>, itemId: Option<string>, needId: bool) returns (k: int)
    ensures k == FirstLink(hrefs, itemId, needId)
  {
    for i := 0 to |hrefs|
      invariant forall j :: 0 <= j < i ==> !Wanted(hrefs[j], itemId, needId)
    {
      if Wanted(hrefs[i], itemId, needId) {
        FirstLinkIs(hrefs, itemId, needId, i);
        return i;
      }
    }
    FirstLinkNone(hrefs, itemId, needId);
    k := -1;
  }

  /** The link at `i` is the first one wanted when none before it is. */
  lemma FirstLinkIs(hrefs: seq<string>, itemId: Option<string>, needId: bool, i: nat)
    requires i < |hrefs| && Wanted(hrefs[i], itemId, needId)
    requires forall j :: 0 <= j < i ==> !Wanted(hrefs[j], itemId, needId)
    ensures FirstLink(hrefs, itemId, needId) == i
  {
    var k := FirstLink(hrefs, itemId, needId);
    assert Wanted(hrefs[i], itemId, needId);
    assert k >= 0 && k >= i;
  }

  /** No link is found when none is wanted. */
  lemma FirstLinkNone(hrefs: seq<string>, itemId: Option<string>, needId: bool)
    requires forall j :: 0 <= j < |hrefs| ==> !Wanted(hrefs[j], itemId, needId)
    ensures FirstLink(hrefs, itemId, needId) == -1
  {
  }

  // ---------------------------------------------------------------------
  // _extract_price
  // ---------------------------------------------------------------------

  /** `_PRICE_CLEAN_RE.sub("", text)`: the digits of the text. */
  function DigitsOf(s: string): (r: string)
    ensures AllDigits(r)
  {
    if |s| == 0 then ""
    else (if IsDigit(s[0]) then [s[0]] else "") + DigitsOf(s[1..])
  }

  /** `_extract_price`: the `content` attribute when it parses as an integer, else the digits of
      the price text, else nothing. */
  function ExtractPrice(priceContent: seq<string>, priceTexts: seq<string>): (price: Option<int>)
    ensures |priceContent| > 0 && ParseInt(priceContent[0]).Some? ==> price == ParseInt(priceContent[0])
    ensures !(|priceContent| > 0 && ParseInt(priceContent[0]).Some?) ==>
      (price.Some? <==> FirstText(priceTexts).Some? && DigitsOf(FirstText(priceTexts).value) != "")
    ensures !(|priceContent| > 0 && ParseInt(priceContent[0]).Some?) && price.Some? ==> price.value >= 0
  {
    var meta := if |priceContent| > 0 then ParseInt(priceContent[0]) else None;
    if meta.Some? then meta
    else
      var text := FirstText(priceTexts);
      if text.None? || text.value == "" then None
      else
        var digits := DigitsOf(text.value);
        if digits == "" then None else Some(DigitsValue(digits))
  }

  /** Without a usable `content`, a price text whose digits spell `n` gives the price `n`. */
  lemma PriceFromText(priceContent: seq<string>, priceTexts: seq<string>, n: nat)
    requires !(|priceContent| > 0 && ParseInt(priceContent[0]).Some?)
    requires |priceTexts| > 0 && DigitsOf(priceTexts[0]) == NatToString(n)
    ensures ExtractPrice(priceContent, priceTexts) == Some(n)
  {
    NatToStringValue(n);
  }

  /** A `content` attribute that `int` accepts wins over the text, underscores and all:
      "1_000" gives 1000. */
  lemma PriceFromGroupedContent(a: string, b: string, rest: seq<string>, priceTexts: seq<string>)
    requires |a| > 0 && AllDigits(a) && |b| > 0 && AllDigits(b)
    ensures ExtractPrice([a + "_" + b] + rest, priceTexts) == Some(DigitsValue(a + b))
  {
    ParseIntUnderscore(a, b);
  }

  /** Removing the non-digits works piece by piece: "45 000 ₽" loses its space and its sign. */
  lemma {:induction false} DigitsOfAppend(a: string, b: string)
    ensures DigitsOf(a + b) == DigitsOf(a) + DigitsOf(b)
  {
    if |a| > 0 {
      assert (a + b)[1..] == a[1..] + b;
      DigitsOfAppend(a[1..], b);
    } else {
      assert a + b == b;
    }
  }

  /** A text of digits only is left as it is. */
  lemma {:induction false} DigitsOfDigits(s: string)
    requires AllDigits(s)
    ensures DigitsOf(s) == s
  {
    if |s| > 0 {
      DigitsOfDigits(s[1..]);
    }
  }

  // ---------------------------------------------------------------------
  // _extract_embedded_by_item_id
  // ---------------------------------------------------------------------

  /** Half the width of the text window scanned around the item id. */
  const WindowRadius := 12000

  /** The window `[max(0, pos - 12000), min(len, pos + 12000))` around the first occurrence of
      the item id, when there is an id and it occurs. */
  function EmbeddedWindow(html: string, itemId: Option<string>): (w: Option<(nat, nat)>)
    ensures w.Some? <==> HasId(itemId) && Contains(html, itemId.value)
    ensures w.Some? ==> var pos := Find(html, itemId.value);
      w.value.0 == (if pos - WindowRadius > 0 then pos - WindowRadius else 0)
      && w.value.1 == (if pos + WindowRadius < |html| then pos + WindowRadius else |html|)
      && w.value.0 <= pos <= w.value.1 <= |html|
  {
    if !HasId(itemId) then None
    else
      var pos := Find(html, itemId.value);
      if pos < 0 then None
      else Some((if pos - WindowRadius > 0 then pos - WindowRadius else 0,
                 if pos + WindowRadius < |html| then pos + WindowRadius else |html|))
  }

  /** The end of a JSON string body starting at `k`: the index of the closing unescaped quote. */
  function StringEnd(w: string, k: nat): (e: Option<nat>)
    decreases |w| - k
    ensures e.Some? ==> k <= e.value < |w| && w[e.value] == '"'
  {
    if k >= |w| then None
    else if w[k] == '"' then Some(k)
    else if w[k] == '\\' then (if k + 1 < |w| then StringEnd(w, k + 2) else None)
    else StringEnd(w, k + 1)
  }

  /** `_DESC_RE` matched at `i`: the bounds of the quoted description. */
  function DescAt(w: string, i: nat): (g: Option<(nat, nat)>)
    requires i <= |w|
    ensures g.Some? ==> i < g.value.0 <= g.value.1 <= |w|
  {
    if !StartsWith(w[i..], "\"description\"") then None
    else
      var j := i + 13 + |TakeRun(w[i + 13..], IsSpace)|;
      if j < |w| && w[j] == ':' then
        var k := j + 1 + |TakeRun(w[j + 1..], IsSpace)|;
        if k < |w| && w[k] == '"' then
          match StringEnd(w, k + 1)
          case Some(e) => Some((k + 1, e))
          case None => None
        else None
      else None
  }

  /** `_DESC_RE.search(w)`: the leftmost match from `i` on. */
  function DescSearch(w: string, i: nat): (g: Option<(nat, nat)>)
    requires i <= |w|
    decreases |w| - i
    ensures g.Some? ==> g.value.0 <= g.value.1 <= |w|
  {
    match DescAt(w, i)
    case Some(g) => Some(g)
    case None => if i == |w| then None else DescSearch(w, i + 1)
  }

  /** A case-insensitive literal at `i` (`re.IGNORECASE` on letters with one lower-case form). */
  predicate WordAtIgnoreCase(w: string, i: nat, lit: string) {
    i + |lit| <= |w| && Lower(w[i..i + |lit|]) == lit
  }

  const Delivery := "доставка"
  const Only := "только"

  predicate IsDeliveryStop(c: char) { c == '"' || c == '<' }

  /** `_DELIVERY_TEXT_RE.search(w)` from `i` on: "Доставка" and up to 80 characters that are
      not '"' or '<'. */
  function DeliverySearch(w: string, i: nat): (g: Option<string>)
    requires i <= |w|
    decreases |w| - i
    ensures g.Some? ==> |g.value| >= |Delivery|
  {
    if WordAtIgnoreCase(w, i, Delivery) then
      var tail := TakeRun(w[i + |Delivery|..], c => !IsDeliveryStop(c));
      var n := if |tail| < 80 then |tail| else 80;
      Some(w[i..i + |Delivery| + n])
    else if i == |w| then None
    else DeliverySearch(w, i + 1)
  }

  /** `_ONLY_DELIVERY_RE` matches at `i`: "Только", at least one whitespace, "доставка". */
  predicate OnlyDeliveryAt(w: string, i: nat) {
    WordAtIgnoreCase(w, i, Only)
    && var sp := TakeRun(w[i + |Only|..], IsSpace);
       |sp| > 0 && WordAtIgnoreCase(w, i + |Only| + |sp|, Delivery)
  }

  predicate OnlyDelivery(w: string) {
    exists i :: 0 <= i <= |w| && OnlyDeliveryAt(w, i)
  }

  /** `_extract_embedded_by_item_id`: the description, delivery text and delivery-only flag found
      in the window around the item id. */
  function ExtractEmbedded(html: string, itemId: Option<string>, dec: Decoders): (Option<string>, Option<string>, bool) {
    match EmbeddedWindow(html, itemId)
    case None => (None, None, false)
    case Some(bounds) =>
      var window := html[bounds.0..bounds.1];
      var windowU := dec.unescape(dec.unescape(window));
      var desc :=
        match DescSearch(windowU, 0)
        case None => None
        case Some(g) =>
          var raw := windowU[g.0..g.1];
          NonEmptyOrNone(Norm(Some(OrElse(dec.unicodeEscape(raw), raw))));
      var deliveryText :=
        match DeliverySearch(window, 0)
        case None => None
        case Some(t) => NonEmptyOrNone(Norm(Some(t)));
      (desc, deliveryText, OnlyDelivery(windowU))
  }

  /** No id, or an id the page does not contain, finds nothing. */
  lemma EmbeddedNeedsId(html: string, itemId: Option<string>, dec: Decoders)
    requires !HasId(itemId) || !Contains(html, itemId.value)
    ensures ExtractEmbedded(html, itemId, dec) == (None, None, false)
  {
  }

  // ---------------------------------------------------------------------
  // parse_catalog_page
  // ---------------------------------------------------------------------

  /** `(c.get("data-item-id") or "").strip() or None`. */
  function ItemId(attr: string): (id: Option<string>)
    ensures id.Some? ==> id.value != "" && id.value == Strip(attr)
  {
    NonEmptyOrNone(Strip(attr))
  }

  /** The title, with the "Avito item <id>" fallback. */
  function Title(node: CardNode): string {
    var t := Norm(FirstText(node.names));
    if t == "" then Strip("Avito item " + OrElse(ItemId(node.itemIdAttr), "")) else t
  }

  /** The description: meta `content`, then the nested text, then the embedded payload. */
  function Description(node: CardNode, embedded: Option<string>): Option<string> {
    var fromMeta := if |node.descContent| > 0 then Some(Norm(Some(node.descContent[0]))) else None;
    var fromText := if fromMeta.Some? && fromMeta.value != "" then fromMeta
                    else NonEmptyOrNone(Norm(FirstText(node.descTexts)));
    if fromText.Some? && fromText.value != "" then fromText else embedded
  }

  /** The description falls back from the meta `content` to the nested text, then to the
      embedded payload, each taken only when the one before it is missing or empty. */
  lemma DescriptionOrder(node: CardNode, embedded: Option<string>)
    ensures |node.descContent| > 0 && Norm(Some(node.descContent[0])) != "" ==>
      Description(node, embedded) == Some(Norm(Some(node.descContent[0])))
    ensures !(|node.descContent| > 0 && Norm(Some(node.descContent[0])) != "") && Norm(FirstText(node.descTexts)) != "" ==>
      Description(node, embedded) == Some(Norm(FirstText(node.descTexts)))
    ensures !(|node.descContent| > 0 && Norm(Some(node.descContent[0])) != "") && Norm(FirstText(node.descTexts)) == "" ==>
      Description(node, embedded) == embedded
  {
    var text := Norm(FirstText(node.descTexts));
    if |node.descContent| > 0 && Norm(Some(node.descContent[0])) != "" {
    } else if text != "" {
      assert NonEmptyOrNone(text) == Some(text);
    } else {
      assert NonEmptyOrNone(text) == None;
    }
  }

  /** The card built from one container node. */
  function ParseCard(node: CardNode, html: string, dec: Decoders): ParsedCard {
    var itemId := ItemId(node.itemIdAttr);
    var city := OrText(FirstText(node.locationTexts), FirstText(node.addressTexts));
    var embedded := ExtractEmbedded(html, itemId, dec);
    ParsedCard(
      itemId,
      CardUrl(node.hrefs, itemId),
      Title(node),
      ExtractPrice(node.priceContent, node.priceTexts),
      if city.Some? && city.value != "" then Some(Norm(city)) else None,
      Description(node, embedded.0),
      None,
      None,
      "active",
      DeliveryRaw(embedded.1, embedded.2))
  }

  /** The raw fields a catalog card carries about delivery. */
  function DeliveryRaw(deliveryText: Option<string>, deliveryOnly: bool): Raw {
    map["src" := Str("catalog"),
        "delivery_text" := (if deliveryText.Some? then Str(deliveryText.value) else Null),
        "delivery_only" := Bool(deliveryOnly),
        "delivery_available" := Bool((deliveryText.Some? && deliveryText.value != "") || deliveryOnly)]
  }

  /** Delivery counts as available exactly when a delivery text or the delivery-only flag was
      recorded. */
  lemma DeliveryRawAgrees(deliveryText: Option<string>, deliveryOnly: bool)
    ensures var raw := DeliveryRaw(deliveryText, deliveryOnly);
      raw["delivery_available"] == Bool((raw["delivery_text"] != Null && raw["delivery_text"] != Str(""))
                                        || raw["delivery_only"] == Bool(true))
  {
    var raw := DeliveryRaw(deliveryText, deliveryOnly);
    assert raw["delivery_text"] == (if deliveryText.Some? then Str(deliveryText.value) else Null);
    assert raw["delivery_only"] == Bool(deliveryOnly);
  }

  lemma StripAvitoItem(id: Option<string>)
    ensures Strip("Avito item " + OrElse(id, "")) != ""
  {
    var s := "Avito item " + OrElse(id, "");
    assert !IsSpace(s[0]);
    assert StripLeft(s) == s;
    StripIsSlice(s);
    if Strip(s) == "" {
      assert StripRight(s) == "";
      StripRightKeepsNonSpace(s, 0);
    }
  }

  lemma {:induction false} StripRightKeepsNonSpace(s: string, i: nat)
    requires i < |s| && !IsSpace(s[i])
    ensures |StripRight(s)| > i
    decreases |s|
  {
    if IsSpace(s[|s| - 1]) {
      StripRightKeepsNonSpace(s[..|s| - 1], i);
    }
  }

  /** What every parsed card satisfies: a non-empty title, status "active", no seller type or
      photo count, a URL on the site without a query, and delivery marked available exactly when
      a delivery text or the delivery-only flag was found. */
  lemma CardShape(node: CardNode, html: string, dec: Decoders)
    ensures var c := ParseCard(node, html, dec);
      c.title != "" && c.status == "active" && c.sellerType.None? && c.photosCount.None?
      && StartsWith(c.url, SiteRoot) && (forall i :: 0 <= i < |c.url| ==> c.url[i] != '?')
      && c.externalId == ItemId(node.itemIdAttr)
      && (c.raw["delivery_available"] == Bool((c.raw["delivery_text"] != Null && c.raw["delivery_text"] != Str(""))
                                              || c.raw["delivery_only"] == Bool(true)))
  {
    StripAvitoItem(ItemId(node.itemIdAttr));
    var itemId := ItemId(node.itemIdAttr);
    CardUrlShape(node.hrefs, itemId);
    var embedded := ExtractEmbedded(html, itemId, dec);
    DeliveryRawAgrees(embedded.1, embedded.2);
  }

  lemma CardUrlShape(hrefs: seq<string>, itemId: Option<string>)
    ensures var url := CardUrl(hrefs, itemId);
      StartsWith(url, SiteRoot) && forall i :: 0 <= i < |url| ==> url[i] != '?'
  {
    var k := FirstLink(hrefs, itemId, true);
    var j := FirstLink(hrefs, itemId, false);
    if HasId(itemId) && k >= 0 {
      Rooted(BeforeQuery(hrefs[k]));
    } else if j >= 0 {
      Rooted(BeforeQuery(hrefs[j]));
    } else {
      Rooted("");
    }
  }

  /** A path without '?' appended to the site root starts with the root and has no '?'. */
  lemma Rooted(path: string)
    requires forall i :: 0 <= i < |path| ==> path[i] != '?'
    ensures StartsWith(SiteRoot + path, SiteRoot)
    ensures forall i :: 0 <= i < |SiteRoot + path| ==> (SiteRoot + path)[i] != '?'
  {
    var u := SiteRoot + path;
    assert u[..|SiteRoot|] == SiteRoot;
    assert forall i :: 0 <= i < |SiteRoot| ==> SiteRoot[i] != '?';
    assert forall i :: |SiteRoot| <= i < |u| ==> u[i] == path[i - |SiteRoot|];
  }

  /** `f` applied to every element of `xs`, in order. */
  function Each<A, B>(f: A -> B, xs: seq<A>): (ys: seq<B>)
    ensures |ys| == |xs|
  {
    if |xs| == 0 then [] else Each(f, xs[..|xs| - 1]) + [f(xs[|xs| - 1])]
  }

  lemma {:induction false} EachIndex<A, B>(f: A -> B, xs: seq<A>, i: nat)
    requires i < |xs|
    ensures Each(f, xs)[i] == f(xs[i])
    decreases |xs|
  {
    if i < |xs| - 1 {
      EachIndex(f, xs[..|xs| - 1], i);
    }
  }

  /** The cards of a page: one per container node, in document order. */
  function CatalogCards(html: string, nodes: seq<CardNode>, dec: Decoders): (cards: seq<ParsedCard>)
    ensures |cards| == |nodes|
  {
    Each((n: CardNode) => ParseCard(n, html, dec), nodes)
  }

  /** `parse_catalog_page`: exactly one card per container node, in document order. */
  method ParseCatalogPage(html: string, nodes: seq<CardNode>, dec: Decoders) returns (out: seq<ParsedCard>)
    ensures out == CatalogCards(html, nodes, dec)
    ensures forall i :: 0 <= i < |nodes| ==> out[i] == ParseCard(nodes[i], html, dec)
  {
    out := [];
    for i := 0 to |nodes|
      invariant out == CatalogCards(html, nodes[..i], dec)
    {
      CatalogCardsStep(html, nodes, dec, i);
      out := out + [ParseCard(nodes[i], html, dec)];
    }
    assert nodes[..|nodes|] == nodes;
    CatalogCardsAt(html, nodes, dec);
  }

  lemma CatalogCardsStep(html: string, nodes: seq<CardNode>, dec: Decoders, i: nat)
    requires i < |nodes|
    ensures CatalogCards(html, nodes[..i + 1], dec) == CatalogCards(html, nodes[..i], dec) + [ParseCard(nodes[i], html, dec)]
  {
    assert nodes[..i + 1][..i] == nodes[..i];
  }

  /** The `i`-th card is parsed from the `i`-th node. */
  lemma CatalogCardsAt(html: string, nodes: seq<CardNode>, dec: Decoders)
    ensures forall i :: 0 <= i < |nodes| ==> CatalogCards(html, nodes, dec)[i] == ParseCard(nodes[i], html, dec)
  {
    forall i | 0 <= i < |nodes|
      ensures CatalogCards(html, nodes, dec)[i] == ParseCard(nodes[i], html, dec)
    {
      EachIndex((n: CardNode) => ParseCard(n, html, dec), nodes, i);
    }
  }
}
