# avito_monitor in Dafny

A model of the core of **avito_monitor**. This monitor polls Avito listing searches for laptops. It stores new listings, classifies each one against a brand → family → variant taxonomy, scores it as a resale deal, and sends a Telegram report on the new items. The model covers the parts that carry the logic:

- **Classifier** (`classifier.dfy`, class `ModelClassifier`):
  - text normalisation and tokenisation;
  - building the token index, phrase list and regex list from alias rows;
  - weight tallies, argmax, ancestry completion, scope and confidence.
- **Client** (`client.dfy`, class `Session`):
  - the per-request retry policy of `fetch_page` (success, hard block, anti-bot or plain redirect, network error, other status);
  - user-agent rotation;
  - the URL builders and the page markers;
  - pagination in `fetch_pages`.
- **Parser** (`parser.dfy`): the field fallbacks of `parse_catalog_page`. These are URL choice, price, description order and the embedded-payload window around the item id.
- **Relevance** (`relevance.dfy`):
  - look-alike normalisation;
  - model-code and generation extraction;
  - the decision table of `is_relevant_for_query`.
- **Dictionaries**:
  - `taxonomy.dfy`: brands, series generators, families and variants;
  - `aliases.dfy`: order-preserving dedup and per-family alias generation;
  - `seed.dfy`: id resolution and assembly of the alias rows.
- **Poller** (`poller.dfy`, class `Jobs`): incremental polling and the initial collection. This covers existence checks, upserts, when paging stops, reports and pauses.
- **Scoring and reports**:
  - `heuristics.dfy`: `analyze_lot`;
  - `report_fmt.dfy`: badges, money format, short links, message splitting;
  - `report.py` (modelled in `report.dfy`): candidate selection, sorting and top-N.
- **Command layer** (`router.dfy`): link recognition, city slugs and the guards of the add commands.
- **Helpers** (`text.dfy`, `urls.dfy`):
  - the Python string operations the code relies on;
  - `urlsplit`/`urlunsplit`, `parse_qsl`/`urlencode` and an insertion-ordered dict.

How the world outside the code is modelled:

- **The network and randomness.** Replies, random draws and agent choices come from an environment. It is given as functions from a counter to a value. Every request, rotation and pause is appended to an event log. Contracts speak about that log, so "never ends on a pause" and "at most `max_tries` requests" are statements about it.
- **Storage.** Storage is a map from url to external id, with a write log. Row ids come from an oracle.
- **Foreign code.** The regex aliases, the defect and repair regexes, lxml/XPath results, `html.unescape` and `unicode_escape` are parameters or abstract predicates.
- **Floats.** Floating-point comparisons are written exactly, as cross-multiplication over integers or as exact reals.
- **Imperative code.** Loops that update state are methods. Each is proved equal to a specification function, and the properties are proved as lemmas about that function.

## Model

| member | source | states |
|---|---|---|
| Urls.SplitWellFormed | src/avito/client.py:218 | every split of a link has a lower-case scheme, a host without `/`, `?` or `#`, a query without `#`, and no tab or line break |
| Urls.SplitUnsplit | src/avito/client.py:218-221 | splitting a link written from well-formed parts with a host gives those parts back |
| Urls.ReplaceQuery | src/avito/client.py:218-221 | a link whose query is replaced by an encoded dictionary splits back to the same scheme, host, path and fragment with that query |
| Urls.DictOfGet | src/avito/client.py:219 | `dict(pairs)` maps each key to the last value given for it |
| Urls.SetKeyCharacterised | src/avito/client.py:208-213 | assigning a key sets it, leaves other keys' values and order alone, and appends a new key last |
| Urls.QuotePlusClean | src/avito/client.py:215 | encoded text contains only unreserved characters, `+` and `%XX` escapes |
| Urls.UrlencodeClean | src/avito/client.py:215 | the encoded query contains no `#`, tab or line break, so it cannot cut the link short |
| Urls.ParseQslUrlencode | src/avito/client.py:215-219 | parsing an encoded dictionary gives the dictionary back |
| Classifier.FoldAll | src/analysis/classifier.py:25-33 | lower-casing, `ё`→`е` and the look-alike table act character by character: same length, each character folded |
| Classifier.NormTextNormal | src/analysis/classifier.py:23-40 | every output of `_norm_text` is normal: folded, no tab/CR/LF, no `×`, no `\|/\\`, no `_`, single inner spaces, no leading or trailing space |
| Classifier.NormalFixed | src/analysis/classifier.py:23-40 | `_norm_text` leaves text of that normal shape unchanged |
| Classifier.NormTextIdempotent | src/analysis/classifier.py:23-40 | `_norm_text` is idempotent, so the second normalisation in `_tokenize` (line 50) after `classify` (line 185) changes nothing |
| Classifier.LookAlikesNormaliseAlike | src/analysis/classifier.py:25-33 | two texts that agree letter by letter after folding (Cyrillic look-alikes versus Latin, case) normalise to the same text |
| Classifier.CyrillicModelLetters | src/analysis/classifier.py:25-33 | `т`/`Т` fold to `t`, `Х` to `x`, `Ё` to `e`, and Cyrillic `Е` folds like Latin `E` |
| Classifier.WordTokens | src/analysis/classifier.py:53 | the words found by the token pattern are non-empty |
| Classifier.GluedMatches | src/analysis/classifier.py:62 | every glued letter+digit match is non-empty and starts with a letter |
| Classifier.Tokenize | src/analysis/classifier.py:43-72 | `_tokenize` returns exactly the token set of the normalised text: words, compact form when non-empty, glued codes without spaces, hyphen parts |
| Classifier.TokenizeNormal | src/analysis/classifier.py:53-72 | the loops after normalisation build exactly that token set |
| Classifier.AddHyphenParts | src/analysis/classifier.py:68-70 | the loop over a snapshot of the tokens adds exactly the non-empty hyphen parts of each hyphenated token |
| Classifier.TokensClosedUnderHyphenParts | src/analysis/classifier.py:68-70 | every non-empty `-`-part of every hyphenated token is itself a token |
| Classifier.TokensNonEmpty | src/analysis/classifier.py:53-70 | no token is the empty string (the compact form is added only when non-empty) |
| Classifier.ToAliases | src/analysis/classifier.py:118-127 | one alias per row read, in order |
| Classifier.TokenIndexCharacterised | src/analysis/classifier.py:138-140 | a pattern is a key of the token index iff some non-phrase, non-regex alias carries it, and it maps to exactly those aliases in row order |
| Classifier.PhraseAliasesCharacterised | src/analysis/classifier.py:136-137 | an alias is in the phrase list iff it was read with match type "phrase" |
| Classifier.RegexAliasesCharacterised | src/analysis/classifier.py:129-135 | an alias is in the regex list iff its match type is "regex" and its pattern compiles |
| Classifier.FamilyMapCharacterised | src/analysis/classifier.py:155-156 | every family id read is mapped, to the brand of the last row that carries it |
| Classifier.BuildIndexes | src/analysis/classifier.py:110-145 | the load loop yields the loaded aliases and the token index, phrase list and regex list characterised above |
| Classifier.ModelClassifier.Load | src/analysis/classifier.py:95-172 | the classifier's indexes and its three id mappings are those of the rows read; a mapping whose query fails stays empty |
| Classifier.TallyCharacterised | src/analysis/classifier.py:202-209 | an id is in a score table iff some hit carries it at that level, and its score is the sum of those hits' weights |
| Classifier.TallyNonNegative | src/analysis/classifier.py:202-204 | with non-negative weights every score is non-negative |
| Classifier.EmptyTally | src/analysis/classifier.py:202-204 | a level that no hit carries has an empty score table |
| Classifier.NoneFoundIff | src/analysis/classifier.py:237 | all three tables are empty iff no hit carries a brand, family or variant id |
| Classifier.AddTokenHits | src/analysis/classifier.py:223-225 | the token loop visits every token exactly once, in some order, adds one hit per alias found and keeps the tables equal to the tally of the hits |
| Classifier.AddPhraseHits | src/analysis/classifier.py:228-230 | a phrase alias is a hit iff its pattern is non-empty and occurs in the text; the tables stay the tally of the hits |
| Classifier.AddRegexHits | src/analysis/classifier.py:233-235 | a regex alias is a hit iff the search finds it in the text; the tables stay the tally of the hits |
| Classifier.ModelClassifier.CollectHits | src/analysis/classifier.py:186-235 | the hits are the token hits (some enumeration of the tokens), then phrase hits, then regex hits, and the tables are their tally |
| Classifier.ArgMax | src/analysis/classifier.py:241-243 | the id picked has a maximal score in its table |
| Classifier.Pick | src/analysis/classifier.py:241-243 | no id for an empty table, otherwise an id with maximal score |
| Classifier.TopEntries | src/analysis/classifier.py:292-294 | the debug table holds the min(n, size) best entries, with their scores, distinct, best first, and no entry left out beats one kept |
| Classifier.Ancestry | src/analysis/classifier.py:245-267 | a mapped variant fixes the family; the brand comes from the family's mapping, else the variant's, else the brand table; each inference is recorded exactly when its step changed the id, holding the id it set |
| Classifier.ScopeOf | src/analysis/classifier.py:270-277 | the scope is "none" exactly when no id is set |
| Classifier.Decide | src/analysis/classifier.py:237-298 | no hit: the empty result; otherwise argmax per table, ancestry, scope of the most specific id, confidence `min(100, best*5 + bonus)`, first 40 hits, top 5 per table |
| Classifier.ModelClassifier.Classify | src/analysis/classifier.py:184-308 | the result is that decision for the hits of the normalised "title description" text |
| Classifier.ConfidenceBounds | src/analysis/classifier.py:279 | with non-negative weights the confidence lies in [0, 100] |
| Classifier.ScopeMatchesIds | src/analysis/classifier.py:189-277 | scope "none" iff no hit carries an id, and then all ids are None and confidence 0; scope "brand" means only a brand id is set |
| Taxonomy.BrandNormsDistinct | src/data/laptop_taxonomy.py:29-65 | no two brands share a normalised name, as the unique index on brand names requires |
| Taxonomy.RangeMembers | src/data/laptop_taxonomy.py:107-147 | a unit-step range loop yields one family per number, the i-th numbered a + i |
| Taxonomy.HpGSeriesShape | src/data/laptop_taxonomy.py:68-72 | `_hp_g_series(prefix, a, b)` yields b−a+1 families, brand "hp", name "HP {prefix} G{g}", norm "hp {prefix.lower()} g{g}" |
| Taxonomy.LatitudeSeriesShape | src/data/laptop_taxonomy.py:75-79 | the Latitude generator yields one family per model in the inclusive range, brand "dell", norm "dell latitude {m}" |
| Taxonomy.ThinkPadTSeriesShape | src/data/laptop_taxonomy.py:82-85 | the ThinkPad T generator yields one family per number, brand "lenovo", norm "lenovo thinkpad t{m}" |
| Taxonomy.ThinkPadXSeriesShape | src/data/laptop_taxonomy.py:88-91 | the ThinkPad X generator yields one family per number, brand "lenovo", norm "lenovo thinkpad x{m}" |
| Taxonomy.SeriesNorms | src/data/laptop_taxonomy.py:104-147 | members of a unit-step range carry the series' brand and its normalised head followed by their number |
| Taxonomy.AspireA315SeriesShape | src/data/laptop_taxonomy.py:94-97 | one Aspire A315 family per suffix, in order, brand "acer", norm "acer aspire a315-" + the lower-cased suffix |
| Taxonomy.AppendRange | src/data/laptop_taxonomy.py:107-147 | a range loop appends exactly the members numbered `range(a, b, step)` to the list |
| Taxonomy.AppendThinkPads | src/data/laptop_taxonomy.py:103-112 | the ThinkPad section appends T, X, E, L and P series in order |
| Taxonomy.AppendHps | src/data/laptop_taxonomy.py:114-123 | the HP section appends the four G series and then the business rounds |
| Taxonomy.AppendHpRounds | src/data/laptop_taxonomy.py:119-123 | each generation appends ProBook 450, ProBook 440, EliteBook 840 and EliteBook 850 |
| Taxonomy.AppendDells | src/data/laptop_taxonomy.py:125-132 | the Dell section appends three Latitude ranges, then Inspiron and Vostro in steps of 10 |
| Taxonomy.AppendAsuses | src/data/laptop_taxonomy.py:134-140 | the Asus section appends VivoBook, ZenBook and TUF ranges |
| Taxonomy.AppendAcers | src/data/laptop_taxonomy.py:142-147 | the Acer section appends A315 suffixes, Nitro and Swift ranges |
| Taxonomy.Families | src/data/laptop_taxonomy.py:100-157 | `families()` builds exactly the family list, section by section |
| Taxonomy.FamilyBrandListed | src/data/laptop_taxonomy.py:100-157 | every brand a family is generated for is in `brands()` |
| Taxonomy.MemberWellFormed | src/data/laptop_taxonomy.py:68-147 | every series member has a listed brand and a norm equal to its lower-cased name |
| Taxonomy.RangeWellFormed | src/data/laptop_taxonomy.py:68-147 | every member of a range is well formed |
| Taxonomy.FamiliesWellFormed | src/data/laptop_taxonomy.py:100-157 | every generated family has a listed brand and `family_name_norm == family_name.lower()` |
| Taxonomy.WellFormedListed | src/data/laptop_taxonomy.py:29-157 | well-formed families have a brand norm that is some brand's `name_norm` |
| Taxonomy.FamiliesListedAndLower | src/data/laptop_taxonomy.py:29-157 | every family's brand is the `name_norm` of an entry of `brands()` and its norm is its lower-cased name |
| Taxonomy.VariantsShape | src/data/laptop_taxonomy.py:160-174 | seven variants: the T14 ones with gen 1–4 and year 2020–2023, the MacBook Air 13 ones with no gen and a year |
| Taxonomy.MemberNotT14 | src/data/laptop_taxonomy.py:82-147 | a series member other than ThinkPad T14 is not named "lenovo thinkpad t14" |
| Taxonomy.SeriesAvoidsT14 | src/data/laptop_taxonomy.py:82-147 | a range that is not a T series reaching 14 contains no "lenovo thinkpad t14" family |
| Taxonomy.RangeAvoids | src/data/laptop_taxonomy.py:107-147 | a range none of whose numbers gives the name contains no family of that name |
| Taxonomy.T14FamilyMissing | src/data/laptop_taxonomy.py:100-167 | no generated family is "lenovo thinkpad t14", although the four T14 variants name it as their family |
| Parser.SplitWsJoin | src/avito/parser.py:179-180 | splitting words joined by single spaces gives the words back |
| Parser.NormWords | src/avito/parser.py:179-180 | `_norm` keeps the words of its input (None read as ""), so a second pass changes nothing |
| Parser.NormSingleSpaced | src/avito/parser.py:179-180 | `_norm` output has no leading or trailing whitespace and only single spaces between words |
| Parser.NonEmptyOrNone | src/avito/parser.py:60 | `x or None` is None exactly for the empty string |
| Parser.BeforeQuery | src/avito/parser.py:160 | the part of a link before its first `?` contains no `?` |
| Parser.FirstLink | src/avito/parser.py:157-163 | the index found is the first link that is relative (and names the item when asked), or -1 when there is none |
| Parser.FindLink | src/avito/parser.py:157-163 | the loop over the links stops at exactly that first wanted link |
| Parser.FirstLinkIs | src/avito/parser.py:157-163 | a wanted link preceded by no wanted link is the one found |
| Parser.FirstLinkNone | src/avito/parser.py:157-164 | no link is found when none is wanted |
| Parser.ExtractUrl | src/avito/parser.py:155-164 | `_extract_url` prefers a relative link naming the item, then any relative link, then the bare domain; the URL starts with `https://www.avito.ru` and has no `?` |
| Parser.CardUrlShape | src/avito/parser.py:155-164 | every card URL starts with `https://www.avito.ru` and contains no `?` |
| Parser.DigitsOf | src/avito/parser.py:151 | removing the non-digits leaves only digits |
| Parser.DigitsOfAppend | src/avito/parser.py:151 | removing the non-digits works piece by piece on a concatenation |
| Parser.DigitsOfDigits | src/avito/parser.py:151 | a text of digits only is left unchanged |
| Parser.ExtractPrice | src/avito/parser.py:140-152 | an integer-parsable meta `content` wins; otherwise there is a price iff the price text exists and has a digit, and it is non-negative |
| Parser.PriceFromText | src/avito/parser.py:148-152 | without a usable `content`, a price text whose digits spell n gives the price n |
| Parser.PriceFromGroupedContent | src/avito/parser.py:142-144 | a `content` of digit groups joined by one underscore, such as "1_000", is accepted by `int` and gives the value of its digits |
| Text.GroupedValue | src/avito/parser.py:144 | `int` on unsigned text has a value exactly when it is ASCII digits with single underscores between them, and that value is never negative |
| Text.ParseIntDigits | src/avito/parser.py:144 | `int` on a plain run of ASCII digits gives their decimal value |
| Text.ParseIntUnderscore | src/avito/parser.py:144 | `int` skips one underscore between two digit groups: "1_000" gives 1000 |
| Text.ParseIntDoubleUnderscore | src/avito/parser.py:144-146 | `int` raises on two underscores in a row, the `ValueError` the price code catches |
| Parser.EmbeddedWindow | src/avito/parser.py:101-111 | there is a window iff the item id is non-empty and occurs; it is `[max(0,pos-12000), min(len,pos+12000))` around its first occurrence |
| Parser.StringEnd | src/avito/parser.py:13 | the end of a JSON string body is a `"` inside the text |
| Parser.DescAt | src/avito/parser.py:13 | a description match at i yields bounds inside the text after i |
| Parser.DescSearch | src/avito/parser.py:119 | the first description match found has bounds inside the text |
| Parser.DeliverySearch | src/avito/parser.py:16 | a delivery match is at least as long as the word "Доставка" |
| Parser.EmbeddedNeedsId | src/avito/parser.py:101-106 | no item id, or one the page does not contain, yields (None, None, False) |
| Parser.ItemId | src/avito/parser.py:40 | an item id is the stripped attribute and never empty |
| Parser.DescriptionOrder | src/avito/parser.py:53-66 | the description is the meta `content`, else the nested text, else the embedded payload, each taken only when the one before it is missing or empty |
| Parser.DeliveryRawAgrees | src/avito/parser.py:68-75 | `delivery_available` is true iff the delivery text is non-empty or `delivery_only` is set |
| Parser.CardShape | src/avito/parser.py:39-90 | every card has a non-empty title, status "active", no seller type or photo count, a rooted URL without `?`, the stripped item id, and consistent delivery flags |
| Parser.CatalogCards | src/avito/parser.py:34-91 | one card per container node |
| Parser.ParseCatalogPage | src/avito/parser.py:34-91 | the loop produces exactly one card per container node, the i-th card parsed from the i-th node |
| Parser.CatalogCardsAt | src/avito/parser.py:39-90 | the i-th card of a page is parsed from the i-th node |
| Client.Session.Get | src/avito/client.py:106-114 | a request returns the next reply of the environment and logs the URL with the current `User-Agent` |
| Client.Session.Random | src/avito/client.py:75-76 | a random draw takes the next value of the environment's draw sequence |
| Client.Session.Sleep | src/avito/client.py:135 | a sleep only appends the pause to the log |
| Client.Jitter | src/avito/client.py:75-76 | `uniform(lo, hi)` lies in [lo, hi], below hi when lo < hi |
| Client.Without | src/avito/client.py:69 | the candidates are exactly the pool entries other than the current agent |
| Client.Candidates | src/avito/client.py:69 | the candidate list is never empty and only holds pool entries |
| Client.Choose | src/avito/client.py:70 | `random.choice` picks an element of the list |
| Client.RotationChangesAgent | src/avito/client.py:61-72 | after a rotation the header is a pool entry different from the previous one |
| Client.RotateUserAgent | src/avito/client.py:61-72 | the session's header becomes the chosen agent, which is returned |
| Client.Head | src/avito/client.py:82 | `t[:n]` is a prefix of t of length min(n, \|t\|), negative n counting from the end |
| Client.SafeHeadOneLine | src/avito/client.py:79-82 | `_safe_head` has no `\n` or `\r`, is no longer than n and than the text, and is otherwise the text itself |
| Client.PolicyTable | src/avito/client.py:117-183 | 200 returns the body; 401/403/429 and marked redirects rotate and wait 60 s, drawing a jitter only for redirects; unmarked redirects back off with jitter [0.8, 6.0]; network errors with [0.5, 5.0]; any other status fails |
| Client.Respond | src/avito/client.py:117-183 | the loop body after the request does what the policy says, branch by branch |
| Client.ReactIs | src/avito/client.py:117-183 | the rotate and back-off branches give the same result as the policy function |
| Client.OnBackoff | src/avito/client.py:171-183 | a network error draws the jitter, then raises on the last attempt or sleeps `min(base*attempt + jitter, max)` |
| Client.OnBlock | src/avito/client.py:121-136 | a hard block rotates, then raises on the last attempt or sleeps 60 s |
| Client.OnRedirect | src/avito/client.py:139-164 | a redirect draws the jitter; a marked one rotates and waits 60 s, an unmarked one backs off; the last attempt raises |
| Client.AttemptOnce | src/avito/client.py:105-183 | one attempt is a request followed by the policy's reaction |
| Client.AttemptEffects | src/avito/client.py:104-183 | each attempt sends exactly one request; a rotation logs exactly one new agent, differing from the old one; a back-off sleeps base*attempt + j with j in the policy's interval; the last attempt raises instead of waiting; 200 returns the body; other statuses fail at once |
| Client.FirstReplyOk | src/avito/client.py:117-118 | a 200 first reply returns its body after exactly one request, with no rotation or sleep |
| Client.BackoffAllowed | src/avito/client.py:147-173 | every back-off pause is at most `max_sleep_s` and at least 0.5 s (or the maximum when that is smaller) |
| Client.AttemptsKeepContract | src/avito/client.py:104-183 | every attempt keeps the per-attempt contract: one request, log only grows, allowed pauses, giving up only on the last attempt |
| Client.LoopRequests | src/avito/client.py:104-185 | the loop sends at most `max_tries` requests; it fails only with a block or an HTTP error; a block error means every attempt was used |
| Client.LoopResult | src/avito/client.py:104-185 | a returned body is that of a 200 reply to the last request; an HTTP error comes from a last reply the policy does not retry |
| Client.LoopEvents | src/avito/client.py:104-185 | the loop only appends to the log; every pause is an allowed one; it never ends on a pause |
| Client.FetchPage | src/avito/client.py:85-185 | `fetch_page` changes the session exactly as the attempt loop from attempt 1 |
| Client.FetchRequests | src/avito/client.py:104-185 | `fetch_page` sends at most `max_tries` requests, and exactly that many when it raises the block error |
| Client.FetchResult | src/avito/client.py:104-185 | a body returned is that of the last reply, which was a 200 |
| Client.FetchEvents | src/avito/client.py:104-185 | `fetch_page` only appends to the log, pauses only for allowed durations, and never ends on a pause |
| Client.UrlSourceRecognised | src/avito/client.py:198-201 | an http(s) URL with surrounding whitespace is recognised as a URL |
| Client.IsUrlFrom | src/avito/client.py:198-201 | a source whose stripped, lower-cased form starts with an http(s) scheme is a URL |
| Client.SearchUrlShape | src/avito/client.py:203-215 | the search URL is https on www.avito.ru with path `/{city}/noutbuki`, and its query decodes to cd, s, localPriority, q, p in that order |
| Client.CategoryUrlPaged | src/avito/client.py:217-221 | the category URL keeps scheme, host, path and fragment; `p` becomes the page; every other key keeps its (last) value; `p` is added last when it was absent |
| Client.SourceUrlValidity | src/avito/client.py:223-226 | whether a source's URL can be built does not depend on the page |
| Client.ProtectionMarkersLower | src/avito/client.py:266-277 | every protection marker is already lower case |
| Client.EmptyResultMarkersLower | src/avito/client.py:286-292 | every empty-result marker is already lower case |
| Client.ProtectionDetected | src/avito/client.py:260-278 | a page that contains a protection marker is recognised whatever the case of the page |
| Client.EmptyResultsDetected | src/avito/client.py:280-293 | a page that contains an empty-result marker is recognised whatever the case of the page |
| Client.FetchPageCardsInSession | src/avito/client.py:295-319 | builds the URL, fetches, raises on a protection page and otherwise returns the parsed cards |
| Client.PageCardsResult | src/avito/client.py:295-319 | the cards come from a 200 reply without a marker to the last request; a protection error comes from a 200 reply with a marker (the model's `ProtectionPage(page)` carries the page, although the source's error here has no page in its text; only `fetch_pages` names it); an invalid URL error iff the URL cannot be built |
| Client.FetchPages | src/avito/client.py:321-352 | `fetch_pages` changes the session exactly as the page loop from page 1 |
| Client.PauseBetweenPages | src/avito/client.py:348-350 | the pause between pages is the page delay plus a jitter drawn from [0.5, 2.0] |
| Client.PagesLoopStep | src/avito/client.py:331-350 | a failed page ends the loop with its error; a page with no cards stops with the pages so far; otherwise the page is kept and, unless it was the last one, a pause follows |
| Client.PagesKeepContract | src/avito/client.py:295-319 | every page fetch sends at most six requests, reports an unbuildable URL without side effects, appends only allowed pauses and never ends on one |
| Client.PagesLoopResult | src/avito/client.py:331-352 | the loop keeps the pages so far, adds only non-empty pages, no more than the pages left; a protection error names a page in range; at most six requests per page |
| Client.PagesLoopEvents | src/avito/client.py:331-352 | the loop only appends to the log, its pauses are allowed ones, and it never ends on a pause |
| Client.FetchPagesResult | src/avito/client.py:321-352 | at most `max_pages` pages, all non-empty; the protection error names a page in 1..max_pages; at most 6*max_pages requests |
| Client.FetchPagesEvents | src/avito/client.py:321-352 | no pause follows the last page; an unbuildable URL ends `fetch_pages` at once with nothing sent |
| Relevance.TranslateAll | src/analysis/relevance.py:19-51 | the look-alike table acts character by character |
| Relevance.TranslateGivesLatin | src/analysis/relevance.py:19-51 | every character the table changes becomes a lower-case Latin letter |
| Relevance.TidyTidied | src/analysis/relevance.py:87-88 | the clean-up leaves no junk characters, only single plain spaces, none at either end |
| Relevance.TidyFixed | src/analysis/relevance.py:87-88 | the clean-up leaves already tidied text unchanged |
| Relevance.BlankNormalisesEmpty | src/analysis/relevance.py:82-84 | empty or whitespace-only input normalises to "" |
| Relevance.ModelsNormalOutput | src/analysis/relevance.py:75-89 | every output of `normalize_for_models` is folded (table and case) and tidied |
| Relevance.ModelsNormalFixed | src/analysis/relevance.py:75-89 | `normalize_for_models` leaves text of that shape unchanged |
| Relevance.NormalizeForModelsIdempotent | src/analysis/relevance.py:75-89 | `normalize_for_models` is idempotent |
| Relevance.TextNormalOutput | src/analysis/relevance.py:66-72 | every output of `normalize_text` is lower case, without `ё`, and tidied |
| Relevance.TextNormalFixed | src/analysis/relevance.py:66-72 | `normalize_text` leaves text of that shape unchanged |
| Relevance.NormalizeTextIdempotent | src/analysis/relevance.py:66-72 | `normalize_text` is idempotent |
| Relevance.LookAlikesNormaliseAlike | src/analysis/relevance.py:75-89 | texts that agree letter by letter after the table and lower-casing normalise to the same text |
| Relevance.SwapLookAlike | src/analysis/relevance.py:75-89 | replacing one letter by a look-alike (e.g. `т` for `t`) does not change the normalised text |
| Relevance.CyrillicModelLetters | src/analysis/relevance.py:19-51 | `т`, `Т`, `Х`, `р`, `Е` and `Ё` fold like their Latin look-alikes |
| Relevance.SearchLeftmost | src/analysis/relevance.py:101 | a search finds the leftmost position where the pattern matches, and nothing iff no position matches |
| Relevance.CodeOf | src/analysis/relevance.py:105-108 | a code is a lower-case letter, 2 to 4 digits and at most two lower-case letters |
| Relevance.CodeAt | src/analysis/relevance.py:15 | a code match at i is well formed, starts at i and ends inside the text |
| Relevance.FirstCode | src/analysis/relevance.py:101 | the first match from i is well formed and inside the text |
| Relevance.ExtractPrimaryModelCode | src/analysis/relevance.py:92-108 | a primary code has the code shape |
| Relevance.PrimaryIsLeftmost | src/analysis/relevance.py:92-108 | there is no primary code iff no position of the normalised query matches; otherwise it is the code of the leftmost match |
| Relevance.FirstCodeLeftmost | src/analysis/relevance.py:101 | the first match is the leftmost one, and none exists iff no position matches |
| Relevance.CodesFromStep | src/analysis/relevance.py:160-181 | scanning goes on one position after a miss, and after a match at its end, collecting the code when it is kept |
| Relevance.VisitPosition | src/analysis/relevance.py:160-181 | one loop step moves forward and keeps collected codes plus codes still to come equal |
| Relevance.CollectCodes | src/analysis/relevance.py:160-183 | the `finditer` loop collects exactly the kept codes of the non-overlapping matches |
| Relevance.ExtractAllModelCodes | src/analysis/relevance.py:143-183 | `extract_all_model_codes` returns exactly those codes, all of the code shape |
| Relevance.ResolutionContextOf | src/analysis/relevance.py:175 | a 3–4 digit number starting a word, followed by whitespace, is a resolution context |
| Relevance.ResolutionDropped | src/analysis/relevance.py:172-179 | an "x" + resolution-dimension code without suffix preceded by such a number (e.g. "1920 x 1200") is dropped |
| Relevance.PrimaryAmongAll | src/analysis/relevance.py:92-183 | when the first match is kept, the primary code is among all the codes of the same text |
| Relevance.GenAt | src/analysis/relevance.py:55 | a "gen N" match has N of at most two digits |
| Relevance.OrdinalGenAt | src/analysis/relevance.py:57 | an "Nth gen" match has N of at most two digits |
| Relevance.GTokenAt | src/analysis/relevance.py:56 | a "gN" match has N of at most two digits |
| Relevance.FirstGenLeftmost | src/analysis/relevance.py:118-133 | each generation search finds the leftmost match of its pattern, and nothing iff no position matches |
| Relevance.ExtractGeneration | src/analysis/relevance.py:111-140 | a generation has at most two digits |
| Relevance.GenerationPreference | src/analysis/relevance.py:111-140 | the generation is from "gen N" if any, else "Nth gen", else "gN" (leftmost match each), and None iff none matches |
| Relevance.HitsIff | src/analysis/relevance.py:192-193 | at least two words hit iff two different words occur |
| Relevance.SoftMatchIff | src/analysis/relevance.py:186-193 | the soft match holds iff two different non-stopword query words of length ≥ 3 occur in the normalised text |
| Relevance.CodeCompact | src/analysis/relevance.py:15 | model codes contain neither whitespace nor hyphens |
| Relevance.ContainsCodeIff | src/analysis/relevance.py:196-211 | `_contains_code` holds iff the code occurs in the normalised text with spaces and hyphens removed |
| Relevance.DecideTable | src/analysis/relevance.py:232-286 | accepted iff no generation clash and (no primary and a soft match, or primary in the title with no other title code, or primary only in the description with no other description code) |
| Relevance.GenerationGate | src/analysis/relevance.py:232-242 | a listing whose generation (title first, then description) differs from the query's is rejected |
| Relevance.NoPrimaryDecision | src/analysis/relevance.py:248-251 | without a primary code: accepted iff the generation agrees and two distinct counted query words occur in the text |
| Relevance.PrimaryDecision | src/analysis/relevance.py:253-286 | with a primary code: accepted iff the generation agrees and the code is in the title with no other title code, or only in the description with no other description code |
| Aliases.BrandAliasesShape | src/data/laptop_aliases.py:23-51 | the 19 brand aliases are tokens targeting "brand" with weight ≥ 2 |
| Aliases.BrandAliasKeysListed | src/data/laptop_aliases.py:23-51 | every brand alias key is the normalised name of a listed brand |
| Aliases.BrandRegexAliasesShape | src/data/laptop_aliases.py:54-71 | the 6 brand regex aliases are regexes targeting a listed brand with weight 2 |
| Aliases.VariantAliasesShape | src/data/laptop_aliases.py:267-277 | the 7 variant aliases are phrases of weight 10 keyed by the i-th variant's normalised name |
| Aliases.MatchFrom | src/data/laptop_aliases.py:78-98 | a successful match captures one non-empty digit string per capturing group |
| Aliases.CapturesAgree | src/data/laptop_aliases.py:78-98 | each rule's pattern has as many groups as its aliases use |
| Aliases.FirstWhere | src/data/laptop_aliases.py:121-253 | the rule chosen is the first that matches, and none is chosen iff none matches |
| Aliases.FirstWhereAt | src/data/laptop_aliases.py:121-253 | a matching rule after only non-matching ones is the one chosen |
| Aliases.FirstWhereNone | src/data/laptop_aliases.py:121-253 | when no rule matches none is chosen |
| Aliases.ChosenRuleAliases | src/data/laptop_aliases.py:121-253 | a family gets exactly the aliases of the first matching rule (each branch ends in `continue`) |
| Aliases.NoRuleMatches | src/data/laptop_aliases.py:121-258 | when no rule is chosen, no rule matches at all |
| Aliases.UniqElements | src/data/laptop_aliases.py:101-110 | `_uniq` keeps exactly the aliases it is given |
| Aliases.UniqNoDuplicates | src/data/laptop_aliases.py:101-110 | `_uniq` output has no alias twice |
| Aliases.UniqExtends | src/data/laptop_aliases.py:101-110 | `_uniq` of a prefix is a prefix of `_uniq` of the whole, so first occurrences keep their order |
| Aliases.UniqNoOp | src/data/laptop_aliases.py:101-110 | a list without duplicates is left unchanged |
| Aliases.Dedup | src/data/laptop_aliases.py:101-110 | the loop with a `seen` set computes `_uniq` |
| Aliases.BuildFamilyAliases | src/data/laptop_aliases.py:113-260 | `build_family_aliases` is every family's aliases in order, deduplicated |
| Aliases.RuleAliasesKeyed | src/data/laptop_aliases.py:121-253 | every rule emits at least one alias, all targeting "family" with the family's normalised name as key |
| Aliases.FamilyAliasesKeyed | src/data/laptop_aliases.py:121-258 | every alias of a family targets that family by its normalised name |
| Aliases.FamilyAliasesNonEmpty | src/data/laptop_aliases.py:121-258 | a family gets aliases iff some rule matches its name or it starts with "apple macbook" |
| Aliases.AllFamilyAliasesKeyed | src/data/laptop_aliases.py:113-258 | every generated alias targets a family of the input by its normalised name |
| Aliases.BuiltAliasesKeyed | src/data/laptop_aliases.py:113-260 | the built list has no duplicates, holds exactly the generated aliases, and each targets an input family |
| Aliases.HpGMatches | src/data/laptop_aliases.py:78 | a name "hp ddd g<d or dd>" matches the first HP rule, capturing series and generation |
| Aliases.HpGNameAliases | src/data/laptop_aliases.py:124-131 | "hp <series> g<gen>" yields token "<series>g<gen>" weight 9 and phrase "<series> g<gen>" weight 10 |
| Aliases.HpGExample | src/data/laptop_aliases.py:124-131 | "hp 250 g8" yields token "250g8" weight 9 and phrase "250 g8" weight 10 |
| Aliases.GeneratedHpGAliases | src/data/laptop_aliases.py:124-131 | every generated HP G-series family gets exactly those two aliases |
| Aliases.RuleFailsOnBrand | src/data/laptop_aliases.py:78-98 | a rule fails on a name that does not start with the rule's brand word |
| Aliases.NoRuleMatchesMacBook | src/data/laptop_aliases.py:78-98 | no rule matches a name starting "apple macbook" |
| Aliases.MacBookAliases | src/data/laptop_aliases.py:255-258 | a MacBook family gets one phrase: its name without "apple ", weight 8 |
| Aliases.MacBookAirExample | src/data/laptop_aliases.py:255-258 | "apple macbook air 13" yields the phrase "macbook air 13" |
| Aliases.ThinkPadTMatches | src/data/laptop_aliases.py:86 | "lenovo thinkpad t" + 3–4 digits matches the ThinkPad T rule, capturing the number |
| Aliases.ThinkPadTSkipsEarlierRules | src/data/laptop_aliases.py:78-85 | the HP and Dell rules, tried earlier, fail on such a name |
| Aliases.ThinkPadTNameAliases | src/data/laptop_aliases.py:174-179 | such a name yields token "t<number>" weight 9 and phrase "thinkpad t<number>" weight 10 |
| Aliases.GeneratedThinkPadTAliases | src/data/laptop_aliases.py:174-179 | every generated ThinkPad T family with a 3–4 digit number gets exactly those two aliases |
| Seed.IdMapDomain | src/scripts/seed_laptop_taxonomy.py:37-48 | a key gets an id exactly when some entry with that key had its parent resolved and was upserted |
| Seed.IdMapLastWins | src/scripts/seed_laptop_taxonomy.py:37-48 | the id kept for a key is the one returned for its last upserted entry; later entries with that key were skipped |
| Seed.AssignIds | src/scripts/seed_laptop_taxonomy.py:27-69 | the id-assignment loop builds exactly the key-to-id dictionary |
| Seed.FamilyIdsDomain | src/scripts/seed_laptop_taxonomy.py:37-48 | a family norm gets an id if and only if some family with that norm names a brand that resolved to a non-zero id |
| Seed.VariantIdsDomain | src/scripts/seed_laptop_taxonomy.py:57-69 | a variant norm gets an id if and only if some variant with that norm names a family that resolved to a non-zero id |
| Seed.BrandResolves | src/scripts/seed_laptop_taxonomy.py:28-30 | when no brand upsert returns 0, every listed brand norm resolves |
| Seed.ListedFamiliesResolve | src/scripts/seed_laptop_taxonomy.py:28-48 | with the real brand list, well-formed families and non-zero brand ids, every family gets an id |
| Seed.T14FamilyUnassigned | src/scripts/seed_laptop_taxonomy.py:34-48 | the generated families never assign an id to "lenovo thinkpad t14" |
| Seed.AbsentFamilyUnassigned | src/scripts/seed_laptop_taxonomy.py:37-48 | a family list with no T14 entry assigns it no id |
| Seed.OrphanVariantSkipped | src/scripts/seed_laptop_taxonomy.py:57-60 | a variant whose family has no id is skipped and gets no id |
| Seed.T14VariantNames | src/data/laptop_taxonomy.py:160-174 | every variant sharing a T14 variant's norm belongs to the T14 family |
| Seed.T14VariantsSkipped | src/scripts/seed_laptop_taxonomy.py:57-60 | without a T14 family id, none of the four T14 variants gets an id |
| Seed.RowsForShape | src/scripts/seed_laptop_taxonomy.py:76-103 | an alias section adds at most one row per alias, each setting exactly the target id of its kind |
| Seed.RowsForMembers | src/scripts/seed_laptop_taxonomy.py:76-103 | a row is added if and only if some alias of the section resolved, with that alias's match type, pattern, weight and id |
| Seed.AppendRows | src/scripts/seed_laptop_taxonomy.py:89-103 | an alias loop appends exactly the section's rows and counts them |
| Seed.RowsForUnresolvedPrefix | src/scripts/seed_laptop_taxonomy.py:99-103 | when the first k aliases do not resolve, at most the rest add rows |
| Seed.SeedFrom | src/scripts/seed_laptop_taxonomy.py:26-104 | the script's rows are brand, regex, family and variant rows in that order, with the two resolved counts |
| Seed.Seed | src/scripts/seed_laptop_taxonomy.py:16-107 | the seed script over the real taxonomy and alias catalogues |
| Seed.SeedRowsHaveTarget | src/scripts/seed_laptop_taxonomy.py:73-103 | every row satisfies the table constraint that one target id is set |
| Seed.T14AliasesUnresolved | src/scripts/seed_laptop_taxonomy.py:99-103 | without a T14 family id, the four T14 variant aliases do not resolve |
| Seed.VariantRowsAtMostThree | src/scripts/seed_laptop_taxonomy.py:97-104 | over the real catalogue, at most three variant alias rows are added because the T14 aliases are orphaned |
| Seed.RowsInSection | src/scripts/seed_laptop_taxonomy.py:73-103 | all rows of one alias loop fall in that loop's section |
| Seed.SectionsOrdered | src/scripts/seed_laptop_taxonomy.py:73-103 | concatenating the four sections keeps rows ordered by section |
| Seed.SeedRowsOrdered | src/scripts/seed_laptop_taxonomy.py:73-103 | brand token rows come before regex rows, then family rows, then variant rows |
| Seed.BrandTokensNotRegex | src/data/laptop_aliases.py:47-98 | no brand token alias has match type "regex" |
| Seed.TheSeedRowsOrdered | src/scripts/seed_laptop_taxonomy.py:73-106 | with the real alias catalogues, the bulk insert receives rows ordered by section |
| Poller.WithClassification | src/jobs/poller.py:17-25 | the raw dictionary keeps the card's keys, gets a truthy category ("laptop" unless one was set), and carries the brand, family and variant ids, confidence and debug of the classification |
| Poller.UpsertStores | src/jobs/poller.py:113-127 | after an upsert the item is found by its url, and by its external id when that is non-empty; no stored url is removed |
| Poller.FlagsOf | src/jobs/poller.py:91-98 | one flag per card, true exactly when the card is found by external id or by url |
| Poller.FreshIndexed | src/jobs/poller.py:106-108 | the cards kept are the cards at the unflagged positions, in page order |
| Poller.FreshIndicesIncreasing | src/jobs/poller.py:106-108 | the unflagged positions are strictly increasing, so no card is saved twice |
| Poller.FreshIndicesExact | src/jobs/poller.py:106-108 | a position is kept if and only if its card was not already stored |
| Poller.IdsOf | src/jobs/poller.py:128 | one recorded id per saved card |
| Poller.NewItemsOf | src/jobs/poller.py:129-138 | one recorded item per saved card |
| Poller.ItemsFor | src/jobs/poller.py:113-127 | the item written for each card is built from that card and its classification |
| Poller.SaveAllWrites | src/jobs/poller.py:106-127 | saving a page appends exactly the items of its new cards to the write log, in order, and marks nothing reported |
| Poller.SaveAllStores | src/jobs/poller.py:106-127 | after saving, every saved card's url is stored and no earlier url is lost |
| Poller.ItemsCarryIds | src/jobs/poller.py:128-138 | each recorded item carries the id returned for the same card |
| Poller.StopsAtStoredCard | src/jobs/poller.py:150-152 | a page holding an already-stored card is the last page fetched |
| Poller.StopsAtEmptyPage | src/jobs/poller.py:86-89 | an empty page ends the loop; nothing is written and nothing more is fetched |
| Poller.PagesFromContinues | src/jobs/poller.py:85-156 | a non-empty page of only new cards is followed by the next page, after its pause |
| Poller.PagesFromLog | src/jobs/poller.py:85-156 | the page loop only appends fetches and pauses to the event log |
| Poller.PagesFromEndsWithFetch | src/jobs/poller.py:154-156 | the page loop never ends with a pause: there is no sleep after the last page |
| Poller.PagesFromStops | src/jobs/poller.py:86-152 | a page that raises, is empty or holds a stored card adds only its own fetch to the log |
| Poller.PagesFromFound | src/jobs/poller.py:81-138 | the found ids and items only grow, stay the same length and stay paired by id |
| Poller.PagesFromDb | src/jobs/poller.py:85-156 | the page loop fetches at most `max_pages` pages, keeps every stored url and marks nothing reported |
| Poller.SourcePauseBounds | src/jobs/poller.py:170-174 | the pause between sources is `between_queries_delay_s` plus a jitter in [0, jitter), or exactly the delay when jitter is not positive |
| Poller.FinishedLog | src/jobs/poller.py:158-174 | after a search the search is touched, a report is sent only for non-empty new items, and only a non-last search ends with a pause |
| Poller.NoPauseAfterLastSource | src/jobs/poller.py:170-174 | a completed run does not end with a pause |
| Poller.ReportsOnlyNewItems | src/jobs/poller.py:160-166 | every report of a run is about a non-empty list of new items |
| Poller.PagesKeepNotices | src/jobs/poller.py:85-156 | the page loop adds no report to the log |
| Poller.FinishKeepsNotices | src/jobs/poller.py:158-166 | the reports a search adds are about non-empty lists |
| Poller.FlattenLength | src/jobs/poller.py:39-59 | the cards of all pages number the sum of the page sizes |
| Poller.Jobs.constructor | src/jobs/poller.py:65-74 | a poller starts on the given storage with an empty event log |
| Poller.Jobs.ExistsByExternalId | src/jobs/poller.py:94-95 | an external id is found exactly when a stored item has it; an empty id is never looked up |
| Poller.Jobs.ExistsByUrl | src/jobs/poller.py:96-97 | a url is found exactly when an item with it is stored |
| Poller.Jobs.CardExists | src/jobs/poller.py:92-98 | a card exists when its non-empty external id is stored, else when its non-empty url is stored |
| Poller.Jobs.PageFlags | src/jobs/poller.py:91-98 | the flag loop computes exactly the existence flags of the page |
| Poller.Jobs.UpsertItem | src/jobs/poller.py:113-127 | an upsert stores the item and returns its row id |
| Poller.Jobs.SavePage | src/jobs/poller.py:106-138 | the loop over the page saves exactly the unflagged cards, in order, and returns their ids and items |
| Poller.Jobs.FetchPage | src/jobs/poller.py:86 | a fetch returns the next page of the world and logs the fetch |
| Poller.Jobs.PauseBetweenPages | src/jobs/poller.py:154-156 | the pause is the page delay plus a uniform draw from [0.5, 2.0] |
| Poller.Jobs.PollPages | src/jobs/poller.py:85-156 | the page loop of one search computes exactly the page-loop function, stopping on a raise, an empty page or a stored card |
| Poller.Jobs.FinishSearch | src/jobs/poller.py:158-174 | touching the search, the optional report and the pause between sources |
| Poller.Jobs.PollAll | src/jobs/poller.py:65-174 | polling all searches computes exactly the run function; a raising page ends the run |
| Poller.Jobs.InitialCollect | src/jobs/poller.py:28-62 | every card of every page is saved in order, the search is touched, and the count equals the total number of cards |
| Heuristics.Window | src/analysis/heuristics.py:36-38 | the context chunk is a slice of the text clamped to its bounds, never longer than the text |
| Heuristics.HasDefectNear | src/analysis/heuristics.py:30-41 | true exactly when some object match has a defect word within the window around it |
| Heuristics.DiscountPoints | src/analysis/heuristics.py:89-104 | the discount points and their reason are the band of `(p50 − price) / p50`: 40, 25, 15, 5 or nothing |
| Heuristics.DiscountMonotone | src/analysis/heuristics.py:89-104 | a lower price never earns fewer discount points, and a band gives a reason exactly when it gives points |
| Heuristics.TruncSixTenths | src/analysis/heuristics.py:140 | `int(p25 * 0.6)` truncates 3·p25/5 toward zero, for either sign |
| Heuristics.Clamp | src/analysis/heuristics.py:149-153 | the score is clamped into [0, 100] and left alone inside it |
| Heuristics.ScanRepairs | src/analysis/heuristics.py:106-126 | the repair loop computes the repair count, the widened cost range and the first two repair reasons |
| Heuristics.ScanCounts | src/analysis/heuristics.py:108-126 | at most one hit per object, at most two repair reasons, and no hit exactly when no object's rule fires |
| Heuristics.ScanCosts | src/analysis/heuristics.py:107-124 | the cost range contains the base range 800–4000 and the range of every object that fired |
| Heuristics.FirstHit | src/analysis/heuristics.py:110-126 | the first object whose rule fires on the lot, with no earlier one firing |
| Heuristics.FirstFrom | src/analysis/heuristics.py:110-126 | the first firing object from a given position on |
| Heuristics.FirstHitReason | src/analysis/heuristics.py:121-126 | when some repair fired, the first repair reason names the first object that fired |
| Heuristics.Conclude | src/analysis/heuristics.py:128-155 | the score, profit range and reasons are assembled from the discount band and the repair scan |
| Heuristics.DecideReason | src/analysis/heuristics.py:125-155 | when repairs fired, the first repair reason follows the discount reason in the kept reasons |
| Heuristics.AnalyzeLot | src/analysis/heuristics.py:72-155 | `analyze_lot` computes exactly the decision function |
| Heuristics.AnalyzeMissingData | src/analysis/heuristics.py:86-87 | a missing price, missing p50 or p50 ≤ 0 gives score 0, no profits and the single "not enough data" reason; the profits are absent only then |
| Heuristics.AnalyzeBounds | src/analysis/heuristics.py:149-155 | the score lies in [0, 100] and at most five reasons are kept |
| Heuristics.AnalyzeProfitOrdered | src/analysis/heuristics.py:144-147 | the minimum profit is below the maximum by at least the base cost spread |
| Heuristics.AnalyzeScore | src/analysis/heuristics.py:89-153 | the score is the clamped sum of the discount points, 12 for any repair, and −10 for an anomalously cheap price |
| Heuristics.AnalyzeRepairReason | src/analysis/heuristics.py:121-155 | when a repair fired, the reason after the discount reason names the first object that fired |
| ReportFmt.EscText | src/analysis/report_fmt.py:6-7 | the escaped text contains no `<`, `>`, `"` or `'` |
| ReportFmt.UnescapeChar | src/analysis/report_fmt.py:6-7 | unescaping the escape of one character gives that character back |
| ReportFmt.UnescapePlain | src/analysis/report_fmt.py:6-7 | a character other than `&` unescapes to itself |
| ReportFmt.UnescapeEsc | src/analysis/report_fmt.py:6-7 | unescaping the escaped text gives the text back |
| ReportFmt.NatToStringThousands | src/analysis/report_fmt.py:13 | a number of at least 1000 is written as its thousands followed by its last three digits |
| ReportFmt.DigitsNoSpace | src/analysis/report_fmt.py:13 | a string of digits has no space to remove |
| ReportFmt.GroupNatDigits | src/analysis/report_fmt.py:13 | removing the group separators from a grouped number gives its decimal digits |
| ReportFmt.GroupNatLength | src/analysis/report_fmt.py:13 | grouping adds one separator per full group of three digits after the first |
| ReportFmt.ShortNatToString | src/analysis/report_fmt.py:13 | a number below 1000 has at most three digits and so no separator |
| ReportFmt.GroupedDigits | src/analysis/report_fmt.py:13 | removing the separators from a grouped integer gives its decimal form, sign included |
| ReportFmt.RoundHalfEven | src/analysis/report_fmt.py:13 | `round` gives an integer within ½ of the value, and the even one on a tie |
| ReportFmt.FormatMoney | src/analysis/report_fmt.py:9-15 | the dash appears exactly for a missing value |
| ReportFmt.FormatMoneyIntegral | src/analysis/report_fmt.py:9-13 | an integral amount is written as its digits with space thousands separators |
| ReportFmt.BadgeScoreBands | src/analysis/report_fmt.py:17-21 | each score badge is given exactly for its band: ≥85, 70–84, 55–69, below 55 |
| ReportFmt.BadgeScoreMonotone | src/analysis/report_fmt.py:17-21 | a higher score never gets a worse badge |
| ReportFmt.BadgeProfitCases | src/analysis/report_fmt.py:23-35 | each profit badge is given exactly for its condition on the maximum and minimum profit |
| ReportFmt.BadgeProfitMonotone | src/analysis/report_fmt.py:23-35 | larger profits never get a worse badge |
| ReportFmt.BadgePriceUnknown | src/analysis/report_fmt.py:37-46 | the unknown-price badge is given exactly when the price or the median is missing |
| ReportFmt.BadgePriceMonotone | src/analysis/report_fmt.py:37-57 | a lower price never gets a worse price badge |
| ReportFmt.ShortUrl | src/analysis/report_fmt.py:59-64 | a shortened url is at most 60 characters |
| ReportFmt.ShortUrlCut | src/analysis/report_fmt.py:59-64 | after removing the schemes, a url over 60 characters keeps its first 57 and gains an ellipsis; a shorter one is kept whole |
| ReportFmt.ShortUrlDropsScheme | src/analysis/report_fmt.py:61 | a short url with a leading `https://` or `http://` is shown without it |
| ReportFmt.HttpNoHttps | src/analysis/report_fmt.py:61 | putting `http://` in front of text without `https://` does not create one |
| ReportFmt.CutLongPart | src/analysis/report_fmt.py:82-88 | a part longer than the limit is cut into pieces that each fit, whose concatenation is the part; the pieces sent are exactly the part's consecutive `limit`-sized slices, the last one shorter |
| ReportFmt.StartMessage | src/analysis/report_fmt.py:78-90 | a part that does not fit beside the buffer sends the buffer when non-empty, then is cut into its slices when longer than the limit, else becomes the new buffer; no text is lost and every message fits |
| ReportFmt.SplitHtmlMessages | src/analysis/report_fmt.py:66-93 | the messages are exactly the greedy packing of the parts (whole parts gathered while they fit, an oversize part cut into slices of its own); every message fits the limit, the messages concatenate to the parts, text that fits becomes one message and no text gives no message |
| ReportFmt.PieceGroupsShape | src/analysis/report_fmt.py:82-88 | each slice of an oversize part is a message of its own, non-empty and within the limit, and every slice but the last is exactly `limit` long |
| ReportFmt.PieceGroupsSpell | src/analysis/report_fmt.py:82-88 | the slices of a part, in order, spell the part |
| ReportFmt.PackInvariant | src/analysis/report_fmt.py:73-90 | after any number of parts, every message sent is a run of whole parts within the limit or one lone slice, the buffer holds only whole parts, and sent messages plus buffer are the parts' units in order |
| ReportFmt.MessagesKeepParts | src/analysis/report_fmt.py:66-93 | the messages, read as groups, are the parts in order: each message is either a run of consecutive non-empty whole parts within the limit or a single slice of one part longer than the limit |
| ReportFmt.PartUnits | src/analysis/report_fmt.py:76-90 | a part that fits the limit enters the messages whole and is never cut; a longer part becomes slices that each fit and spell it |
| ReportFmt.TwoPartsOneMessage | src/analysis/report_fmt.py:76-77 | two non-empty parts that fit together are sent as one message, their concatenation |
| ReportFmt.TwoPartsTwoMessages | src/analysis/report_fmt.py:79-90 | two parts that each fit but not together are sent as two messages, each part whole |
| ReportFmt.TwoTagsApart | src/analysis/report_fmt.py:66-93 | `["<b>a</b>", "<b>b</b>"]` under a limit of 10 gives the two tags as two messages, never a message cut inside a tag |
| Report.FormatMoney | src/analysis/report.py:9-12 | the dash appears exactly for a missing amount |
| Report.FormatMoneyAgrees | src/analysis/report.py:9-12 | on integers the module's own `format_money` writes the same text as the shared one: the digits grouped by spaces |
| Report.ScoredAll | src/analysis/report.py:111-122 | one scored entry per new item |
| Report.Candidates | src/analysis/report.py:124-128 | every candidate has a profit maximum, a score of at least `score_min` and a profit maximum of at least `profit_min_need`, and comes from the scored items |
| Report.CandidatesComplete | src/analysis/report.py:124-128 | every scored item meeting the thresholds is a candidate |
| Report.ZeroProfitRanksLast | src/analysis/report.py:129 | at equal score a profit maximum of 0 sorts as −10^9, below any other negative profit |
| Report.Insert | src/analysis/report.py:129 | inserting one entry into the sorted list keeps its multiset and adds the entry |
| Report.SortDesc | src/analysis/report.py:129-136 | sorting permutes the entries |
| Report.InsertSorted | src/analysis/report.py:129-136 | insertion keeps a list sorted by descending (score, profit key) |
| Report.SortDescSorted | src/analysis/report.py:129-136 | the sorted list is in descending order of (score, profit key) |
| Report.InsertStable | src/analysis/report.py:129 | inserting into a sorted list puts the new entry after every entry with the same sort key, leaving their order alone |
| Report.SortDescStable | src/analysis/report.py:129-136 | the sort is stable even with `reverse=True`: the entries sharing any one (score, profit key) come out in their input order |
| Report.Take | src/analysis/report.py:133-137 | the first `top_n` entries form a prefix of length min(top_n, length) |
| Report.ShowPrefix | src/analysis/report.py:131-138 | the shown list is a prefix of the sorted pool of at most `top_n` entries, and the fallback title is used exactly when there is no candidate |
| Report.ShowSorted | src/analysis/report.py:129-137 | the shown list is sorted descending by (score, profit key) |
| Report.ShowCandidates | src/analysis/report.py:132-134 | when there are candidates, only candidates are shown |
| Report.ShowBest | src/analysis/report.py:129-137 | every shown entry ranks at least as high as every entry of the pool that is not shown |
| Report.LotPartsLength | src/analysis/report.py:144-160 | each shown lot adds six parts |
| Report.BuildReport | src/analysis/report.py:79-162 | no items give the single header-and-"nothing new" message; otherwise the messages are the greedy packing of the header, title, legend and lot parts under 3900 characters, so no part that fits is cut; every message fits and the messages concatenate to the parts |
| Router.LooksLikeUrlAnyCase | src/bot/router.py:22-24 | a text beginning with `http://` or `https://` in any letter case looks like a link |
| Router.LastIndex | src/bot/router.py:29 | the last position of a character, or −1 when it is absent |
| Router.ParamsPath | src/bot/router.py:29 | the path `urlparse` reports is a prefix of the split path, with any `;params` of its last segment cut off |
| Router.ParamsPathPlain | src/bot/router.py:29 | a path without `;` is reported whole |
| Router.Segments | src/bot/router.py:34 | the path segments are non-empty and contain no `/` |
| Router.CitySlugOfSupported | src/bot/router.py:27-52 | a city slug is found exactly for a supported avito.ru link, and it is the first of its two or more path segments |
| Router.LocateUnsplit | src/bot/router.py:29 | a well-formed link with a host is parsed back to that host and its path |
| Router.SegmentsOfTwo | src/bot/router.py:34 | the segments of "/city/section" are the city and the section |
| Router.CitySlugOfPath | src/bot/router.py:32-52 | an avito.ru host with path "/city/section" is supported and gives that city as slug |
| Router.CitySlugOfLink | src/bot/router.py:27-52 | a category link `https://…avito.ru/city/section?…` is supported and its slug is the city |
| Router.AddAutoDispatch | src/bot/router.py:119-130 | `/add` answers with usage exactly when there is no argument, and passes the argument to the category path exactly when it looks like a link, otherwise to the query path |
| Router.AddCategoryStores | src/bot/router.py:149-155 | a category is stored exactly for a link that looks like a URL and is a supported avito.ru link, always with the city the link names, so the "url" fallback is never taken |
| Router.AddQueryGuard | src/bot/router.py:180-185 | a query is stored exactly when it has at least two characters, with the configured city |

## Left out

- **Database I/O and wiring.** Database access (`src/db/*`) is left out, and so are SQL upsert and percentile semantics, the connection pool, logging, configuration, scheduling, and the Telegram message handlers and `asyncio.create_task`. These are I/O and UI. Storage is a map with a write log. Row ids, price statistics and sent messages are recorded as events or oracles.
- **Sessions and sleeps.** `AvitoClient._make_session` and aiohttp response objects are not modelled. Each reply is a status, a body and an optional `Location`. A sleep is a recorded duration, never a wait.
- **Randomness.** `random.uniform` and `random.choice` draw from an environment sequence. Contracts only use the interval or the pool the draw falls in.
- **HTML and escape decoding.** lxml parsing, the XPath queries, `html.unescape` and `unicode_escape` are foreign libraries. A card is modelled as the results of its XPath queries. The two decoders are function parameters.
- **Regexes.** The regex engine itself is not modelled. Brand regex aliases, the defect-word regex and the repair-object patterns are abstract predicates or span oracles. The model-code, generation, glued-code and family-rule patterns are written out by hand. So are the parser's description, delivery-text and delivery-only regexes (`_DESC_RE`, `_DELIVERY_TEXT_RE`, `_ONLY_DELIVERY_RE`), as `Parser.StringEnd`, `Parser.DescAt`, `Parser.DescSearch`, `Parser.DeliverySearch` and `Parser.OnlyDeliveryAt`; their contracts state only bounds on a match, not the text it takes.
- **Unicode.** Case folding and `\w`/`\s` cover ASCII, Latin-1 and the Cyrillic block (U+0400 to U+04FF) only; within that block every capital `str.lower` maps is lowered. No other Unicode case mapping or normalisation is modelled. `\d` is ASCII digits.
- **Floats.** Floating-point arithmetic is replaced by exact arithmetic:
  - the discount ratio and `int(p25 * 0.6)` in `analyze_lot`, and the thresholds of `badge_price`, use integer cross-multiplication;
  - pauses are exact reals;
  - `round` is round-half-even on reals.
  NaN, infinities and the `except` branches of `format_money` and `badge_price` for values that are not numbers are not modelled, since every value reaching them here is an integer.
- **Argmax ties.** In `classify`, the id `max(..., key=...)` picks among equal scores depends on dict insertion order, which comes from set iteration. The model picks some id of maximal score.
  - The token loop visits the tokens in an arbitrary enumeration.
- **Red flags.** The red-flag table of `analyze_lot` is empty in the source, as all its entries are commented out. Its loop adds nothing and is not modelled.
- **Always-defect objects.** In `analyze_lot`, an object counts as a defect on its own only when its pattern's source text matches the always-defect regex. Only the donor/repair entry qualifies: the other pattern texts hold a literal `\s*`, which that regex cannot match. The table `Heuristics.RepairObjects` records the result of that test as a flag.
- **`build_report`.** The first report builder, `build_report` (src/analysis/report.py:14-77), is not used by the poller or the commands and is not modelled. Only `build_report_v2` is.
- **The empty report.** When there are no new items, `build_report_v2` returns its one message without passing it through `split_html_messages`. So that message is not bounded by the 3900-character limit. `Report.BuildReport` states this case as the exact message, not as a fitting one.
- **Other bot commands.** `/list`, `/stats`, `/unknown`, `fmt_dt` and the answer texts of the command layer are UI and not modelled. The argument parsing and guards of `/add`, `/addcat` and `/addq` are modelled.
- **The `i3`/`i5`/`i7`/`i9` filter.** This filter in `extract_all_model_codes` (src/analysis/relevance.py:167) can never fire, because the code pattern needs 2–4 digits. No property is stated about it.
- **`urlsplit` errors.** `Urls.Split` matches no single Python release. It does the left strip of C0 controls and spaces that `urlsplit` does from Python 3.11.4 on; earlier releases remove only tabs and line breaks. It does not do the checks of a bracketed host that came in 3.11.4 and later (`_check_bracketed_host`, `_check_bracketed_netloc`), or the NFKC check of `_checknetloc`. So its only `ValueError` is unbalanced brackets, and `Router.IsSupportedAvitoUrl` accepts `https://[::1]avito.ru/a/b`, which newer versions reject. Both callers strip whitespace first, so the left strip only matters for other control characters.
- **`int` on text.** `Text.ParseInt` accepts ASCII digits with single underscores between them, an optional sign and surrounding whitespace. The non-ASCII decimal digits that Python's `int` also accepts are not modelled.
- **Rejection reasons.** `is_relevant_for_query` (src/analysis/relevance.py:239-286) returns a message string with the offending codes as `sorted(...)[:6]`. `Relevance.Reason` keeps the reason as a constructor carrying the whole code set; the message text is not modelled.
- **Code over documentation.** Where the documented behaviour and the code disagree, the model follows the code:
  - there is no dictionary-based fallback for unmatched text in the classifier;
  - redirects are only the statuses 301, 302, 303, 307 and 308, not every 3xx;
  - a shortened link can be 60 characters long, because one of 59 or 60 characters after the scheme is removed is kept whole;
  - the report has no "p50 (family)" label;
  - there is no browser-fingerprint rotation: only the `User-Agent` header is rotated.
- **The T14 variants.** The four ThinkPad T14 variants name the family "lenovo thinkpad t14", which `families()` never generates. So the seed script skips them and their aliases. `Taxonomy.T14FamilyMissing`, `Seed.T14VariantsSkipped` and `Seed.VariantRowsAtMostThree` state this behaviour as the code has it.
- `ReportFmt.SplitHtmlMessages`: requires a limit of at least 1. With a limit of 0 or less, the source's inner `while rest` loop never ends on a non-empty part.
- `Parser.ExtractPrice`: its own contract only says the price taken from the display text is non-negative. The exact value read from the digits is stated by `Parser.PriceFromText`.
