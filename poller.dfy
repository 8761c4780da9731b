/** The polling jobs: the first collection of a search, and the incremental poll that walks the
    pages of every search until it meets an item already stored.  The database, the network,
    the classifier and the clock are the world the jobs act on. */
module Poller {
  import opened Text
  import opened Parser
  import Client
  import Classifier

  // ---------------------------------------------------------------------
  // Merging the classification into the raw dictionary
  // ---------------------------------------------------------------------

  /** A value of the merged `raw` dictionary: a value of the card's own `raw`, or the
      classification's debug block, whose inner structure is not modelled. */
  datatype Field = Plain(v: Value) | DebugOf(cls: Classifier.Classification)

  type ItemRaw = map<string, Field>

  /** `d.get(key)`. */
  function Get(d: Raw, key: string): Value {
    if key in d then d[key] else Null
  }

  /** Python truthiness of a raw value. */
  predicate Truthy(v: Value) {
    match v
    case Null => false
    case Bool(b) => b
    case Int(i) => i != 0
    case Str(s) => s != ""
  }

  /** An id as the classification dictionary holds it: the number, or None. */
  function IdValue(id: Option<int>): Value {
    if id.Some? then Int(id.value) else Null
  }

  const ClassificationKeys: set<string> :=
    {"category", "brand_id", "model_family_id", "model_variant_id", "model_confidence", "model_debug"}

  /** `_build_raw_with_classification(raw, cls)`: a copy of `raw` (or of an empty dictionary)
      whose category defaults to "laptop" and which carries the classification. */
  function WithClassification(raw: Option<Raw>, cls: Classifier.Classification): (r: ItemRaw)
    ensures r.Keys == (if raw.Some? then raw.value.Keys else {}) + ClassificationKeys
    ensures forall k :: k in r && k !in ClassificationKeys ==> r[k] == Plain(raw.value[k])
    ensures r["category"].Plain? && Truthy(r["category"].v)
    ensures raw.Some? && Truthy(Get(raw.value, "category")) ==> r["category"] == Plain(raw.value["category"])
    ensures r["brand_id"] == Plain(IdValue(cls.brandId))
    ensures r["model_family_id"] == Plain(IdValue(cls.familyId))
    ensures r["model_variant_id"] == Plain(IdValue(cls.variantId))
    ensures r["model_confidence"] == Plain(Int(cls.confidence))
    ensures r["model_debug"] == DebugOf(cls)
  {
    var base := if raw.Some? then raw.value else map[];
    var copy := map k | k in base :: Plain(base[k]);
    var category := Get(base, "category");
    copy["category" := Plain(if Truthy(category) then category else Str("laptop"))]
        ["brand_id" := Plain(IdValue(cls.brandId))]
        ["model_family_id" := Plain(IdValue(cls.familyId))]
        ["model_variant_id" := Plain(IdValue(cls.variantId))]
        ["model_confidence" := Plain(Int(cls.confidence))]
        ["model_debug" := DebugOf(cls)]
  }

  // ---------------------------------------------------------------------
  // Storage
  // ---------------------------------------------------------------------

  /** `ItemUpsert`. */
  datatype ItemUpsert = ItemUpsert(
    searchId: int,
    externalId: Option<string>,
    url: string,
    title: string,
    price: Option<int>,
    city: Option<string>,
    description: Option<string>,
    sellerType: Option<string>,
    photosCount: Option<int>,
    status: string,
    raw: ItemRaw)

  /** The items table as the jobs see it: the external id stored under each url (the table's
      conflict key), the upserts in the order they were written, and the id lists marked as
      reported. */
  datatype Db = Db(items: map<string, Option<string>>, written: seq<ItemUpsert>, reported: seq<seq<int>>)

  /** `item_exists_by_external_id`: an empty id is never found. */
  predicate HasExternalId(db: Db, e: string) {
    e != "" && Some(e) in db.items.Values
  }

  /** `item_exists_by_url`. */
  predicate HasUrl(db: Db, url: string) {
    url in db.items
  }

  /** Whether the poll counts a card as already stored: by its external id when it has one,
      otherwise (or when that id is not found) by its url when it has one. */
  predicate Exists(db: Db, c: ParsedCard) {
    (c.externalId.Some? && c.externalId.value != "" && HasExternalId(db, c.externalId.value))
    || (c.url != "" && HasUrl(db, c.url))
  }

  /** `upsert_item`: the row under the item's url is inserted or updated, keeping its old
      external id when the new one is None. */
  function Upsert(db: Db, u: ItemUpsert): Db {
    var ext := if u.externalId.Some? then u.externalId
               else if u.url in db.items then db.items[u.url] else None;
    db.(items := db.items[u.url := ext], written := db.written + [u])
  }

  /** An upserted item is found by its url afterwards, and no url is ever removed. */
  lemma UpsertStores(db: Db, u: ItemUpsert)
    ensures HasUrl(Upsert(db, u), u.url)
    ensures Upsert(db, u).items.Keys == db.items.Keys + {u.url}
    ensures u.externalId.Some? && u.externalId.value != "" ==> HasExternalId(Upsert(db, u), u.externalId.value)
  {
    var db2 := Upsert(db, u);
    if u.externalId.Some? {
      assert db2.items[u.url] == u.externalId;
    }
  }

  // ---------------------------------------------------------------------
  // The world
  // ---------------------------------------------------------------------

  /** What a page fetch gave: the page's cards, or an exception. */
  datatype Fetched = Cards(cards: seq<ParsedCard>) | Raised

  /** The world outside the jobs: the result of the n-th page fetch, the n-th random draw, the
      id of the row stored under a url, and the classifier loaded for the run. */
  datatype World = World(
    pages: nat -> Fetched,
    draws: nat -> Client.Fraction,
    rowId: string -> int,
    classify: (string, Option<string>) -> Classifier.Classification)

  /** An item the poll reports: its row id and the card fields the report reads. */
  datatype NewItem = NewItem(id: int, url: string, title: string, price: Option<int>, city: Option<string>,
    description: Option<string>)

  /** What the jobs did outside the database, in order. */
  datatype Event =
    | Fetch(source: string, page: int)
    | Slept(seconds: real)
    | Touched(searchId: int)
    | Notified(searchId: int, items: seq<NewItem>)

  datatype State = State(db: Db, events: seq<Event>, fetched: nat, drawn: nat)

  /** `searches` rows: `int(s["id"])` and `str(s["query"])`. */
  datatype Search = Search(id: int, query: string)

  /** The parameters of `incremental_poll_all`: the client's page limit and page delay, whether
      a bot and a non-zero chat id are given, the pause between sources and its jitter. */
  datatype PollConfig = PollConfig(maxPages: int, pageDelay: int, bot: bool, notifyChatId: Option<int>,
    betweenDelay: int, jitter: real)

  predicate Notifies(cfg: PollConfig) {
    cfg.bot && cfg.notifyChatId.Some? && cfg.notifyChatId.value != 0
  }

  // ---------------------------------------------------------------------
  // One page
  // ---------------------------------------------------------------------

  /** The existence flags of a page's cards, all checked against the same storage. */
  function FlagsOf(db: Db, cards: seq<ParsedCard>): (flags: seq<bool>)
    ensures |flags| == |cards|
    ensures forall i :: 0 <= i < |cards| ==> flags[i] == Exists(db, cards[i])
  {
    if |cards| == 0 then [] else FlagsOf(db, cards[..|cards| - 1]) + [Exists(db, cards[|cards| - 1])]
  }

  /** The cards among the first `n` whose flag is false, in page order. */
  function Fresh(cards: seq<ParsedCard>, flags: seq<bool>, n: nat): seq<ParsedCard>
    requires n <= |cards| && n <= |flags|
  {
    if n == 0 then []
    else Fresh(cards, flags, n - 1) + (if flags[n - 1] then [] else [cards[n - 1]])
  }

  lemma FreshStep(cards: seq<ParsedCard>, flags: seq<bool>, i: nat)
    requires i < |cards| && i < |flags|
    ensures Fresh(cards, flags, i + 1) == Fresh(cards, flags, i) + (if flags[i] then [] else [cards[i]])
  {
  }

  /** The positions among the first `n` whose flag is false, in increasing order. */
  function FreshIndices(flags: seq<bool>, n: nat): seq<nat>
    requires n <= |flags|
  {
    if n == 0 then []
    else FreshIndices(flags, n - 1) + (if flags[n - 1] then [] else [n - 1])
  }

  lemma FreshIndicesStep(flags: seq<bool>, i: nat)
    requires i < |flags|
    ensures FreshIndices(flags, i + 1) == FreshIndices(flags, i) + (if flags[i] then [] else [i])
  {
  }

  /** The cards that are not stored are exactly the cards at the unflagged positions, in
      increasing order of position. */
  lemma {:induction false} FreshIndexed(cards: seq<ParsedCard>, flags: seq<bool>, n: nat)
    requires n <= |cards| && n <= |flags|
    ensures var ix := FreshIndices(flags, n);
      |Fresh(cards, flags, n)| == |ix|
      && forall k :: 0 <= k < |ix| ==> ix[k] < n && Fresh(cards, flags, n)[k] == cards[ix[k]]
  {
    if n > 0 {
      FreshIndexed(cards, flags, n - 1);
    }
  }

  /** The unflagged positions are increasing, so no card is taken twice. */
  lemma {:induction false} FreshIndicesIncreasing(flags: seq<bool>, n: nat)
    requires n <= |flags|
    ensures var ix := FreshIndices(flags, n);
      (forall k :: 0 <= k < |ix| ==> ix[k] < n)
      && forall k, l :: 0 <= k < l < |ix| ==> ix[k] < ix[l]
  {
    if n > 0 {
      FreshIndicesIncreasing(flags, n - 1);
      FreshIndicesStep(flags, n - 1);
    }
  }

  /** A position is taken if and only if its card is not stored. */
  lemma {:induction false} FreshIndicesExact(flags: seq<bool>, n: nat)
    requires n <= |flags|
    ensures forall i :: 0 <= i < n ==> (i in FreshIndices(flags, n) <==> !flags[i])
  {
    if n > 0 {
      FreshIndicesExact(flags, n - 1);
      FreshIndicesIncreasing(flags, n - 1);
      FreshIndicesStep(flags, n - 1);
    }
  }

  /** The item written for a card, with the classification of its title and description. */
  function ItemFor(w: World, searchId: int, c: ParsedCard): ItemUpsert {
    ItemUpsert(searchId, c.externalId, c.url, c.title, c.price, c.city, c.description, c.sellerType,
      c.photosCount, c.status, WithClassification(Some(c.raw), w.classify(c.title, c.description)))
  }

  function NewItemFor(id: int, c: ParsedCard): NewItem {
    NewItem(id, c.url, c.title, c.price, c.city, c.description)
  }

  /** Storage after upserting `items` in order. */
  function SaveItems(db: Db, items: seq<ItemUpsert>): Db {
    if |items| == 0 then db
    else Upsert(SaveItems(db, items[..|items| - 1]), items[|items| - 1])
  }

  /** Storage after upserting the items of `cards` in order. */
  function SaveAll(w: World, db: Db, searchId: int, cards: seq<ParsedCard>): Db {
    SaveItems(db, ItemsFor(w, searchId, cards))
  }

  /** The ids returned for `cards`. */
  function IdsOf(w: World, cards: seq<ParsedCard>): (ids: seq<int>)
    ensures |ids| == |cards|
  {
    if |cards| == 0 then [] else IdsOf(w, cards[..|cards| - 1]) + [w.rowId(cards[|cards| - 1].url)]
  }

  /** The new items recorded for `cards`. */
  function NewItemsOf(w: World, cards: seq<ParsedCard>): (items: seq<NewItem>)
    ensures |items| == |cards|
  {
    if |cards| == 0 then []
    else NewItemsOf(w, cards[..|cards| - 1]) + [NewItemFor(w.rowId(cards[|cards| - 1].url), cards[|cards| - 1])]
  }

  /** One more card saved: its item is upserted last, its id and item recorded last. */
  lemma SaveSnoc(w: World, db: Db, searchId: int, cards: seq<ParsedCard>, c: ParsedCard)
    ensures SaveAll(w, db, searchId, cards + [c]) == Upsert(SaveAll(w, db, searchId, cards), ItemFor(w, searchId, c))
    ensures IdsOf(w, cards + [c]) == IdsOf(w, cards) + [w.rowId(c.url)]
    ensures NewItemsOf(w, cards + [c]) == NewItemsOf(w, cards) + [NewItemFor(w.rowId(c.url), c)]
  {
    assert (cards + [c])[..|cards|] == cards;
    var items := ItemsFor(w, searchId, cards + [c]);
    ItemsForSnoc(w, searchId, cards + [c]);
    assert items[..|items| - 1] == ItemsFor(w, searchId, cards);
  }

  /** The items written for `cards`, in order. */
  function ItemsFor(w: World, searchId: int, cards: seq<ParsedCard>): (items: seq<ItemUpsert>)
    ensures |items| == |cards| && forall i :: 0 <= i < |cards| ==> items[i] == ItemFor(w, searchId, cards[i])
  {
    seq(|cards|, i requires 0 <= i < |cards| => ItemFor(w, searchId, cards[i]))
  }

  /** Saving appends exactly the items of the cards to the write log, in order. */
  lemma SaveAllWrites(w: World, db: Db, searchId: int, cards: seq<ParsedCard>)
    ensures SaveAll(w, db, searchId, cards).written == db.written + ItemsFor(w, searchId, cards)
    ensures SaveAll(w, db, searchId, cards).reported == db.reported
  {
    SaveItemsWrites(db, ItemsFor(w, searchId, cards));
  }

  lemma {:induction false} SaveItemsWrites(db: Db, items: seq<ItemUpsert>)
    ensures SaveItems(db, items).written == db.written + items
    ensures SaveItems(db, items).reported == db.reported
  {
    if |items| > 0 {
      var init := items[..|items| - 1];
      SaveItemsWrites(db, init);
      assert init + [items[|items| - 1]] == items;
    }
  }

  lemma ItemsForSnoc(w: World, searchId: int, cards: seq<ParsedCard>)
    requires |cards| > 0
    ensures ItemsFor(w, searchId, cards)
            == ItemsFor(w, searchId, cards[..|cards| - 1]) + [ItemFor(w, searchId, cards[|cards| - 1])]
  {
  }

  /** A log extended by more items keeps the old log as its prefix. */
  lemma AppendedPrefix<T>(a: seq<T>, b: seq<T>)
    ensures |a| <= |a + b| && (a + b)[..|a|] == a
  {
  }

  /** After saving, every card's url is stored, and no url stored before is removed. */
  lemma SaveAllStores(w: World, db: Db, searchId: int, cards: seq<ParsedCard>)
    ensures var db2 := SaveAll(w, db, searchId, cards);
      (forall c :: c in cards ==> HasUrl(db2, c.url))
      && db.items.Keys <= db2.items.Keys
  {
    var items := ItemsFor(w, searchId, cards);
    SaveItemsStores(db, items);
    forall c | c in cards
      ensures HasUrl(SaveItems(db, items), c.url)
    {
      var i :| 0 <= i < |cards| && cards[i] == c;
      assert items[i] in items && items[i].url == c.url;
    }
  }

  lemma {:induction false} SaveItemsStores(db: Db, items: seq<ItemUpsert>)
    ensures var db2 := SaveItems(db, items);
      (forall u :: u in items ==> HasUrl(db2, u.url))
      && db.items.Keys <= db2.items.Keys
  {
    if |items| > 0 {
      var init := items[..|items| - 1];
      SaveItemsStores(db, init);
      var db1 := SaveItems(db, init);
      UpsertStores(db1, items[|items| - 1]);
      forall u | u in items
        ensures HasUrl(SaveItems(db, items), u.url)
      {
        if u != items[|items| - 1] {
          var i :| 0 <= i < |items| && items[i] == u;
          assert init[i] == u;
        }
      }
    }
  }

  /** Each recorded item carries the id returned for the same card. */
  lemma {:induction false} ItemsCarryIds(w: World, cards: seq<ParsedCard>)
    ensures forall i :: 0 <= i < |cards| ==> NewItemsOf(w, cards)[i].id == IdsOf(w, cards)[i]
  {
    if |cards| > 0 {
      ItemsCarryIds(w, cards[..|cards| - 1]);
    }
  }

  // ---------------------------------------------------------------------
  // The page loop of one search
  // ---------------------------------------------------------------------

  /** The new items found so far for one search. */
  datatype Found = Found(ids: seq<int>, items: seq<NewItem>)

  function PageFetched(st: State, source: string, page: int): State {
    st.(events := st.events + [Fetch(source, page)], fetched := st.fetched + 1)
  }

  /** The pause between two pages: the page delay plus `random.uniform(0.5, 2.0)`. */
  function PagePause(w: World, st: State, pageDelay: int): State {
    st.(events := st.events + [Slept(pageDelay as real + Client.Jitter(0.5, 2.0, w.draws(st.drawn)))],
        drawn := st.drawn + 1)
  }

  function PagesLeft(maxPages: int, page: int): nat {
    if page <= maxPages then maxPages - page + 1 else 0
  }

  /** The page loop of `incremental_poll_all` from page `page` on: a page that raises ends the
      poll, an empty page stops it; otherwise the page's cards are checked against storage, the
      ones not stored are classified and upserted, and paging stops after a page with a stored
      card or after the last page, with a pause between pages. */
  function PagesFrom(w: World, searchId: int, source: string, maxPages: int, pageDelay: int, page: int,
      st: State, found: Found): (bool, State, Found)
    decreases PagesLeft(maxPages, page)
  {
    if page > maxPages then (true, st, found)
    else
      var f := w.pages(st.fetched);
      var st1 := PageFetched(st, source, page);
      if f.Raised? then (false, st1, found)
      else if |f.cards| == 0 then (true, st1, found)
      else
        var flags := FlagsOf(st1.db, f.cards);
        var unseen := Fresh(f.cards, flags, |f.cards|);
        var st2 := st1.(db := SaveAll(w, st1.db, searchId, unseen));
        var found2 := Found(found.ids + IdsOf(w, unseen), found.items + NewItemsOf(w, unseen));
        if true in flags then (true, st2, found2)
        else
          PagesFrom(w, searchId, source, maxPages, pageDelay, page + 1,
            if page != maxPages then PagePause(w, st2, pageDelay) else st2, found2)
  }

  /** A page holding a stored card is the last one fetched. */
  lemma StopsAtStoredCard(w: World, searchId: int, source: string, maxPages: int, pageDelay: int, page: int,
      st: State, found: Found, i: nat)
    requires page <= maxPages
    requires w.pages(st.fetched).Cards? && i < |w.pages(st.fetched).cards|
    requires Exists(st.db, w.pages(st.fetched).cards[i])
    ensures PagesFrom(w, searchId, source, maxPages, pageDelay, page, st, found).1.fetched == st.fetched + 1
  {
    var cards := w.pages(st.fetched).cards;
    assert FlagsOf(PageFetched(st, source, page).db, cards)[i];
  }

  /** An empty page is the last one fetched, and nothing is written for it. */
  lemma StopsAtEmptyPage(w: World, searchId: int, source: string, maxPages: int, pageDelay: int, page: int,
      st: State, found: Found)
    requires page <= maxPages && w.pages(st.fetched) == Cards([])
    ensures PagesFrom(w, searchId, source, maxPages, pageDelay, page, st, found)
      == (true, PageFetched(st, source, page), found)
  {
  }

  /** The page that follows a page of new cards: the state and the found items it starts from. */
  function NextPageStart(w: World, searchId: int, source: string, maxPages: int, pageDelay: int, page: int,
      st: State, found: Found): (State, Found)
    requires w.pages(st.fetched).Cards?
  {
    var cards := w.pages(st.fetched).cards;
    var st1 := PageFetched(st, source, page);
    var unseen := Fresh(cards, FlagsOf(st1.db, cards), |cards|);
    var st2 := st1.(db := SaveAll(w, st1.db, searchId, unseen));
    (if page != maxPages then PagePause(w, st2, pageDelay) else st2,
     Found(found.ids + IdsOf(w, unseen), found.items + NewItemsOf(w, unseen)))
  }

  /** The loop goes on from a non-empty page of new cards before the last page to the next. */
  lemma PagesFromContinues(w: World, searchId: int, source: string, maxPages: int, pageDelay: int, page: int,
      st: State, found: Found)
    requires page <= maxPages && w.pages(st.fetched).Cards? && |w.pages(st.fetched).cards| > 0
    requires true !in FlagsOf(st.db, w.pages(st.fetched).cards)
    ensures var next := NextPageStart(w, searchId, source, maxPages, pageDelay, page, st, found);
      PagesFrom(w, searchId, source, maxPages, pageDelay, page, st, found)
      == PagesFrom(w, searchId, source, maxPages, pageDelay, page + 1, next.0, next.1)
  {
  }

  /** The events the page loop adds: fetches and pauses. */
  predicate PageLog(es: seq<Event>) {
    forall i :: 0 <= i < |es| ==> es[i].Fetch? || es[i].Slept?
  }

  lemma NextPageLog(w: World, searchId: int, source: string, maxPages: int, pageDelay: int, page: int,
      st: State, found: Found)
    requires w.pages(st.fetched).Cards?
    ensures var e := NextPageStart(w, searchId, source, maxPages, pageDelay, page, st, found).0.events;
      |st.events| < |e| && e[..|st.events|] == st.events && PageLog(e[|st.events|..])
      && e[|st.events|] == Fetch(source, page)
      && (page == maxPages ==> e == st.events + [Fetch(source, page)])
  {
  }

  /** The page loop only adds fetches and pauses to the log. */
  lemma {:induction false} PagesFromLog(w: World, searchId: int, source: string, maxPages: int, pageDelay: int,
      page: int, st: State, found: Found)
    ensures var st2 := PagesFrom(w, searchId, source, maxPages, pageDelay, page, st, found).1;
      |st.events| <= |st2.events| && st2.events[..|st.events|] == st.events
      && PageLog(st2.events[|st.events|..])
    decreases PagesLeft(maxPages, page)
  {
    if page <= maxPages {
      var f := w.pages(st.fetched);
      var st1 := PageFetched(st, source, page);
      if f.Cards? && |f.cards| > 0 && true !in FlagsOf(st.db, f.cards) {
        var next := NextPageStart(w, searchId, source, maxPages, pageDelay, page, st, found);
        PagesFromContinues(w, searchId, source, maxPages, pageDelay, page, st, found);
        NextPageLog(w, searchId, source, maxPages, pageDelay, page, st, found);
        PagesFromLog(w, searchId, source, maxPages, pageDelay, page + 1, next.0, next.1);
        var st2 := PagesFrom(w, searchId, source, maxPages, pageDelay, page + 1, next.0, next.1).1;
        LogChain(st.events, next.0.events, st2.events);
      } else {
        assert PageLog(st1.events[|st.events|..]);
      }
    } else {
      assert st.events[|st.events|..] == [];
    }
  }

  /** A page loop that had a page to fetch ends its log with a fetch, never with a pause. */
  lemma {:induction false} PagesFromEndsWithFetch(w: World, searchId: int, source: string, maxPages: int,
      pageDelay: int, page: int, st: State, found: Found)
    requires page <= maxPages
    ensures var st2 := PagesFrom(w, searchId, source, maxPages, pageDelay, page, st, found).1;
      |st2.events| > 0 && st2.events[|st2.events| - 1].Fetch?
    decreases PagesLeft(maxPages, page)
  {
    var f := w.pages(st.fetched);
    if f.Cards? && |f.cards| > 0 && true !in FlagsOf(st.db, f.cards) {
      var next := NextPageStart(w, searchId, source, maxPages, pageDelay, page, st, found);
      PagesFromContinues(w, searchId, source, maxPages, pageDelay, page, st, found);
      if page < maxPages {
        PagesFromEndsWithFetch(w, searchId, source, maxPages, pageDelay, page + 1, next.0, next.1);
      } else {
        NextPageLog(w, searchId, source, maxPages, pageDelay, page, st, found);
      }
    } else {
      PagesFromStops(w, searchId, source, maxPages, pageDelay, page, st, found);
    }
  }

  /** A page that raises, is empty or holds a stored card is the last one: after it the log
      only has its fetch. */
  lemma PagesFromStops(w: World, searchId: int, source: string, maxPages: int, pageDelay: int, page: int,
      st: State, found: Found)
    requires page <= maxPages
    requires !(w.pages(st.fetched).Cards? && |w.pages(st.fetched).cards| > 0 && true !in FlagsOf(st.db, w.pages(st.fetched).cards))
    ensures PagesFrom(w, searchId, source, maxPages, pageDelay, page, st, found).1.events
      == st.events + [Fetch(source, page)]
  {
  }

  lemma LogChain(a: seq<Event>, b: seq<Event>, c: seq<Event>)
    requires |a| <= |b| && b[..|a|] == a && PageLog(b[|a|..])
    requires |b| <= |c| && c[..|b|] == b && PageLog(c[|b|..])
    ensures |a| <= |c| && c[..|a|] == a && PageLog(c[|a|..])
  {
    assert c[..|a|] == c[..|b|][..|a|];
    forall i | 0 <= i < |c| - |a|
      ensures c[|a|..][i].Fetch? || c[|a|..][i].Slept?
    {
      if |a| + i < |b| {
        assert c[|a|..][i] == b[|a|..][i];
      } else {
        assert c[|a|..][i] == c[|b|..][|a| + i - |b|];
      }
    }
  }

  /** The found ids and items are only appended to, and stay paired: each item carries the id
      found with it. */
  lemma {:induction false} PagesFromFound(w: World, searchId: int, source: string, maxPages: int, pageDelay: int,
      page: int, st: State, found: Found)
    requires |found.ids| == |found.items| && forall k :: 0 <= k < |found.ids| ==> found.items[k].id == found.ids[k]
    ensures var found2 := PagesFrom(w, searchId, source, maxPages, pageDelay, page, st, found).2;
      |found.ids| <= |found2.ids| && found2.ids[..|found.ids|] == found.ids
      && |found2.ids| == |found2.items| && found2.items[..|found.items|] == found.items
      && forall k :: 0 <= k < |found2.ids| ==> found2.items[k].id == found2.ids[k]
    decreases PagesLeft(maxPages, page)
  {
    if page <= maxPages {
      var f := w.pages(st.fetched);
      if f.Cards? && |f.cards| > 0 {
        var st1 := PageFetched(st, source, page);
        var unseen := Fresh(f.cards, FlagsOf(st1.db, f.cards), |f.cards|);
        ItemsCarryIds(w, unseen);
        FoundPaired(found, w, unseen);
        if true !in FlagsOf(st.db, f.cards) {
          var next := NextPageStart(w, searchId, source, maxPages, pageDelay, page, st, found);
          PagesFromContinues(w, searchId, source, maxPages, pageDelay, page, st, found);
          PagesFromFound(w, searchId, source, maxPages, pageDelay, page + 1, next.0, next.1);
          var found3 := PagesFrom(w, searchId, source, maxPages, pageDelay, page + 1, next.0, next.1).2;
          PrefixChain(found.ids, next.1.ids, found3.ids);
          PrefixChain(found.items, next.1.items, found3.items);
        }
      }
    }
  }

  lemma FoundPaired(found: Found, w: World, unseen: seq<ParsedCard>)
    requires forall i :: 0 <= i < |unseen| ==> NewItemsOf(w, unseen)[i].id == IdsOf(w, unseen)[i]
    requires |found.ids| == |found.items| && forall k :: 0 <= k < |found.ids| ==> found.items[k].id == found.ids[k]
    ensures var found2 := Found(found.ids + IdsOf(w, unseen), found.items + NewItemsOf(w, unseen));
      |found2.ids| == |found2.items| && forall k :: 0 <= k < |found2.ids| ==> found2.items[k].id == found2.ids[k]
  {
  }

  lemma PrefixChain<T>(a: seq<T>, b: seq<T>, c: seq<T>)
    requires |a| <= |b| && b[..|a|] == a && |b| <= |c| && c[..|b|] == b
    ensures |a| <= |c| && c[..|a|] == a
  {
    assert c[..|a|] == c[..|b|][..|a|];
  }

  /** From `st` to `st2` at most `n` pages were fetched, storage only grew, its write log was only
      appended to, and nothing was marked reported. */
  predicate DbGrows(st: State, st2: State, n: nat) {
    st.fetched <= st2.fetched <= st.fetched + n
    && st.db.items.Keys <= st2.db.items.Keys
    && |st.db.written| <= |st2.db.written| && st2.db.written[..|st.db.written|] == st.db.written
    && st2.db.reported == st.db.reported
  }

  /** At most one fetch per remaining page is made; storage only grows, its write log is only
      appended to, and nothing is marked reported. */
  lemma {:induction false} PagesFromDb(w: World, searchId: int, source: string, maxPages: int, pageDelay: int,
      page: int, st: State, found: Found)
    ensures DbGrows(st, PagesFrom(w, searchId, source, maxPages, pageDelay, page, st, found).1, PagesLeft(maxPages, page))
    decreases PagesLeft(maxPages, page)
  {
    if page <= maxPages {
      var f := w.pages(st.fetched);
      if f.Cards? && |f.cards| > 0 && true !in FlagsOf(st.db, f.cards) {
        var next := NextPageStart(w, searchId, source, maxPages, pageDelay, page, st, found);
        NextStartGrows(w, searchId, source, maxPages, pageDelay, page, st, found);
        PagesFromContinues(w, searchId, source, maxPages, pageDelay, page, st, found);
        PagesFromDb(w, searchId, source, maxPages, pageDelay, page + 1, next.0, next.1);
        var st3 := PagesFrom(w, searchId, source, maxPages, pageDelay, page + 1, next.0, next.1).1;
        GrowsChain(st, next.0, st3, 1, PagesLeft(maxPages, page + 1));
      } else {
        LastPageGrows(w, searchId, source, maxPages, pageDelay, page, st, found);
      }
    }
  }

  lemma GrowsChain(st: State, st1: State, st2: State, n1: nat, n2: nat)
    requires DbGrows(st, st1, n1) && DbGrows(st1, st2, n2)
    ensures DbGrows(st, st2, n1 + n2)
  {
    PrefixChain(st.db.written, st1.db.written, st2.db.written);
  }

  /** The state a continuing page hands to the next one. */
  lemma NextStartGrows(w: World, searchId: int, source: string, maxPages: int, pageDelay: int, page: int,
      st: State, found: Found)
    requires w.pages(st.fetched).Cards?
    ensures DbGrows(st, NextPageStart(w, searchId, source, maxPages, pageDelay, page, st, found).0, 1)
  {
    var cards := w.pages(st.fetched).cards;
    var st1 := PageFetched(st, source, page);
    var unseen := Fresh(cards, FlagsOf(st1.db, cards), |cards|);
    SaveAllWrites(w, st1.db, searchId, unseen);
    AppendedPrefix(st1.db.written, ItemsFor(w, searchId, unseen));
    SaveAllStores(w, st1.db, searchId, unseen);
  }

  /** A page that ends the loop: an error, no cards, or a card already stored. */
  lemma LastPageGrows(w: World, searchId: int, source: string, maxPages: int, pageDelay: int, page: int,
      st: State, found: Found)
    requires page <= maxPages
    requires var f := w.pages(st.fetched); !(f.Cards? && |f.cards| > 0 && true !in FlagsOf(st.db, f.cards))
    ensures DbGrows(st, PagesFrom(w, searchId, source, maxPages, pageDelay, page, st, found).1, PagesLeft(maxPages, page))
  {
    var f := w.pages(st.fetched);
    var st1 := PageFetched(st, source, page);
    if f.Cards? && |f.cards| > 0 {
      var unseen := Fresh(f.cards, FlagsOf(st1.db, f.cards), |f.cards|);
      SaveAllWrites(w, st1.db, searchId, unseen);
      AppendedPrefix(st1.db.written, ItemsFor(w, searchId, unseen));
      SaveAllStores(w, st1.db, searchId, unseen);
    }
  }

  // ---------------------------------------------------------------------
  // All searches
  // ---------------------------------------------------------------------

  function Touch(st: State, searchId: int): State {
    st.(events := st.events + [Touched(searchId)])
  }

  /** The report step: the report on the new items is sent and their ids marked reported. */
  function Report(st: State, searchId: int, found: Found): State {
    st.(events := st.events + [Notified(searchId, found.items)],
        db := st.db.(reported := st.db.reported + [found.ids]))
  }

  /** The pause between two sources: the configured delay plus `random.uniform(0, jitter)`
      when the jitter is positive. */
  function SourcePause(w: World, st: State, cfg: PollConfig): State {
    if cfg.jitter > 0.0 then
      st.(events := st.events + [Slept(cfg.betweenDelay as real + Client.Jitter(0.0, cfg.jitter, w.draws(st.drawn)))],
          drawn := st.drawn + 1)
    else st.(events := st.events + [Slept(cfg.betweenDelay as real)])
  }

  /** The pause between sources lasts between the configured delay and that plus the jitter,
      short of the latter. */
  lemma SourcePauseBounds(w: World, st: State, cfg: PollConfig)
    ensures var e := SourcePause(w, st, cfg).events;
      |e| == |st.events| + 1 && e[|e| - 1].Slept?
      && cfg.betweenDelay as real <= e[|e| - 1].seconds
      && (cfg.jitter > 0.0 ==> e[|e| - 1].seconds < cfg.betweenDelay as real + cfg.jitter)
      && (cfg.jitter <= 0.0 ==> e[|e| - 1].seconds == cfg.betweenDelay as real)
  {
  }

  /** What follows the page loop of a search: it is marked polled, reported on when it found new
      items and notification is on, and followed by the pause between sources unless it is the
      last. */
  function Finished(w: World, s: Search, found: Found, cfg: PollConfig, last: bool, st: State): State {
    var st1 := Touch(st, s.id);
    var st2 := if |found.items| > 0 && Notifies(cfg) then Report(st1, s.id, found) else st1;
    if !last then SourcePause(w, st2, cfg) else st2
  }

  /** `incremental_poll_all` from the `k`-th search on: a page that raises ends the whole run;
      otherwise each search is polled and finished in turn. */
  function SearchesFrom(w: World, searches: seq<Search>, cfg: PollConfig, k: nat, st: State): (bool, State)
    decreases |searches| - k
  {
    if k >= |searches| then (true, st)
    else
      var s := searches[k];
      var r := PagesFrom(w, s.id, s.query, cfg.maxPages, cfg.pageDelay, 1, st, Found([], []));
      if !r.0 then (false, r.1)
      else SearchesFrom(w, searches, cfg, k + 1, Finished(w, s, r.2, cfg, k == |searches| - 1, r.1))
  }

  /** The last search ends with marking it polled or reporting on it; any other search also
      ends with a pause. Only non-empty item lists are reported. */
  lemma FinishedLog(w: World, s: Search, found: Found, cfg: PollConfig, last: bool, st: State)
    ensures var e := Finished(w, s, found, cfg, last, st).events;
      |st.events| < |e| && e[..|st.events|] == st.events
      && (last ==> e[|e| - 1].Touched? || e[|e| - 1].Notified?)
      && (!last ==> e[|e| - 1].Slept?)
      && forall i :: |st.events| <= i < |e| && e[i].Notified? ==> |e[i].items| > 0
  {
  }

  /** A run that polled every source does not end with a pause: the last thing it did was
      to mark the last search polled or to report on it. */
  lemma {:induction false} NoPauseAfterLastSource(w: World, searches: seq<Search>, cfg: PollConfig, k: nat, st: State)
    requires k < |searches|
    ensures var r := SearchesFrom(w, searches, cfg, k, st);
      r.0 ==> |r.1.events| > 0 && (r.1.events[|r.1.events| - 1].Touched? || r.1.events[|r.1.events| - 1].Notified?)
    decreases |searches| - k
  {
    var s := searches[k];
    var r := PagesFrom(w, s.id, s.query, cfg.maxPages, cfg.pageDelay, 1, st, Found([], []));
    if r.0 {
      var st3 := Finished(w, s, r.2, cfg, k == |searches| - 1, r.1);
      assert SearchesFrom(w, searches, cfg, k, st) == SearchesFrom(w, searches, cfg, k + 1, st3);
      if k + 1 < |searches| {
        NoPauseAfterLastSource(w, searches, cfg, k + 1, st3);
      } else {
        FinishedLog(w, s, r.2, cfg, true, r.1);
      }
    }
  }

  /** Every report of a run is about a non-empty list of new items. */
  predicate ReportsNonEmpty(es: seq<Event>) {
    forall i :: 0 <= i < |es| && es[i].Notified? ==> |es[i].items| > 0
  }

  lemma {:induction false} ReportsOnlyNewItems(w: World, searches: seq<Search>, cfg: PollConfig, k: nat, st: State)
    requires ReportsNonEmpty(st.events)
    ensures ReportsNonEmpty(SearchesFrom(w, searches, cfg, k, st).1.events)
    decreases |searches| - k
  {
    if k < |searches| {
      var s := searches[k];
      var r := PagesFrom(w, s.id, s.query, cfg.maxPages, cfg.pageDelay, 1, st, Found([], []));
      PagesFromLog(w, s.id, s.query, cfg.maxPages, cfg.pageDelay, 1, st, Found([], []));
      PagesKeepNotices(st.events, r.1.events);
      if r.0 {
        var st3 := Finished(w, s, r.2, cfg, k == |searches| - 1, r.1);
        assert SearchesFrom(w, searches, cfg, k, st) == SearchesFrom(w, searches, cfg, k + 1, st3);
        FinishedLog(w, s, r.2, cfg, k == |searches| - 1, r.1);
        FinishKeepsNotices(r.1.events, st3.events);
        ReportsOnlyNewItems(w, searches, cfg, k + 1, st3);
      }
    }
  }

  /** The page loop adds no report to the log. */
  lemma PagesKeepNotices(events: seq<Event>, events2: seq<Event>)
    requires |events| <= |events2| && events2[..|events|] == events && PageLog(events2[|events|..])
    requires ReportsNonEmpty(events)
    ensures ReportsNonEmpty(events2)
  {
    forall i | |events| <= i < |events2|
      ensures !events2[i].Notified?
    {
      assert events2[|events|..][i - |events|] == events2[i];
    }
    forall i | 0 <= i < |events| && events2[i].Notified?
      ensures |events2[i].items| > 0
    {
      assert events2[i] == events[i];
    }
  }

  lemma FinishKeepsNotices(events: seq<Event>, events2: seq<Event>)
    requires |events| <= |events2| && events2[..|events|] == events
    requires forall i :: |events| <= i < |events2| && events2[i].Notified? ==> |events2[i].items| > 0
    requires ReportsNonEmpty(events)
    ensures ReportsNonEmpty(events2)
  {
    forall i | 0 <= i < |events| && events2[i].Notified?
      ensures |events2[i].items| > 0
    {
      assert events2[i] == events[i];
    }
  }

  // ---------------------------------------------------------------------
  // The first collection of a search
  // ---------------------------------------------------------------------

  /** The cards of all pages, page after page. */
  function Flatten(pages: seq<seq<ParsedCard>>): seq<ParsedCard> {
    if |pages| == 0 then [] else Flatten(pages[..|pages| - 1]) + pages[|pages| - 1]
  }

  /** The number of cards over all pages. */
  function TotalCards(pages: seq<seq<ParsedCard>>): nat {
    if |pages| == 0 then 0 else TotalCards(pages[..|pages| - 1]) + |pages[|pages| - 1]|
  }

  lemma TakeSnoc<T>(s: seq<T>, j: nat)
    requires j < |s|
    ensures s[..j + 1] == s[..j] + [s[j]]
  {
  }

  lemma AppendSnoc<T>(a: seq<T>, b: seq<T>, x: T)
    ensures a + (b + [x]) == (a + b) + [x]
  {
  }

  lemma FlattenStep(pages: seq<seq<ParsedCard>>, i: nat)
    requires i < |pages|
    ensures Flatten(pages[..i + 1]) == Flatten(pages[..i]) + pages[i]
  {
    assert pages[..i + 1][..i] == pages[..i];
  }

  lemma {:induction false} FlattenLength(pages: seq<seq<ParsedCard>>)
    ensures |Flatten(pages)| == TotalCards(pages)
  {
    if |pages| > 0 {
      FlattenLength(pages[..|pages| - 1]);
    }
  }

  // ---------------------------------------------------------------------
  // The jobs
  // ---------------------------------------------------------------------

  class Jobs {
    const world: World
    var st: State

    constructor(world: World, db: Db)
      ensures this.world == world && st == State(db, [], 0, 0)
    {
      this.world := world;
      st := State(db, [], 0, 0);
    }

    method ExistsByExternalId(e: string) returns (b: bool)
      ensures b == HasExternalId(st.db, e)
    {
      if e == "" {
        return false;
      }
      b := Some(e) in st.db.items.Values;
    }

    method ExistsByUrl(url: string) returns (b: bool)
      ensures b == HasUrl(st.db, url)
    {
      b := url in st.db.items;
    }

    /** The existence check of one card. */
    method CardExists(c: ParsedCard) returns (exists_: bool)
      ensures exists_ == Exists(st.db, c)
    {
      exists_ := false;
      if c.externalId.Some? && c.externalId.value != "" {
        exists_ := ExistsByExternalId(c.externalId.value);
      }
      if !exists_ && c.url != "" {
        exists_ := ExistsByUrl(c.url);
      }
    }

    /** The loop that fills `exists_flags`. */
    method PageFlags(cards: seq<ParsedCard>) returns (flags: seq<bool>)
      ensures flags == FlagsOf(st.db, cards)
    {
      flags := [];
      for i := 0 to |cards|
        invariant flags == FlagsOf(st.db, cards[..i])
      {
        assert cards[..i + 1][..i] == cards[..i];
        var e := CardExists(cards[i]);
        flags := flags + [e];
      }
      assert cards[..|cards|] == cards;
    }

    method UpsertItem(u: ItemUpsert) returns (id: int)
      modifies this
      ensures st == old(st).(db := Upsert(old(st).db, u))
      ensures id == world.rowId(u.url)
    {
      st := st.(db := Upsert(st.db, u));
      id := world.rowId(u.url);
    }

    /** The loop over `zip(page_cards, exists_flags)`: every card not stored is classified and
        upserted, and its id and item recorded. */
    method SavePage(searchId: int, cards: seq<ParsedCard>, flags: seq<bool>) returns (ids: seq<int>, items: seq<NewItem>)
      modifies this
      ensures var unseen := Fresh(cards, flags, if |cards| <= |flags| then |cards| else |flags|);
        st == old(st).(db := SaveAll(world, old(st).db, searchId, unseen))
        && ids == IdsOf(world, unseen) && items == NewItemsOf(world, unseen)
    {
      ids := [];
      items := [];
      var n := if |cards| <= |flags| then |cards| else |flags|;
      for i := 0 to n
        invariant st == old(st).(db := SaveAll(world, old(st).db, searchId, Fresh(cards, flags, i)))
        invariant ids == IdsOf(world, Fresh(cards, flags, i)) && items == NewItemsOf(world, Fresh(cards, flags, i))
      {
        FreshStep(cards, flags, i);
        if flags[i] {
          assert Fresh(cards, flags, i) + [] == Fresh(cards, flags, i);
          continue;
        }
        var c := cards[i];
        SaveSnoc(world, old(st).db, searchId, Fresh(cards, flags, i), c);
        var cls := world.classify(c.title, c.description);
        var raw2 := WithClassification(Some(c.raw), cls);
        var u := ItemUpsert(searchId, c.externalId, c.url, c.title, c.price, c.city,
          c.description, c.sellerType, c.photosCount, c.status, raw2);
        assert u == ItemFor(world, searchId, c);
        var itemId := UpsertItem(u);
        ids := ids + [itemId];
        items := items + [NewItemFor(itemId, c)];
      }
    }

    /** `fetch_page_cards_in_session(session, source, page)`. */
    method FetchPage(source: string, page: int) returns (f: Fetched)
      modifies this
      ensures f == world.pages(old(st).fetched)
      ensures st == PageFetched(old(st), source, page)
    {
      f := world.pages(st.fetched);
      st := PageFetched(st, source, page);
    }

    /** `await asyncio.sleep(page_delay_s + random.uniform(0.5, 2.0))`. */
    method PauseBetweenPages(pageDelay: int)
      modifies this
      ensures st == PagePause(world, old(st), pageDelay)
    {
      var u := world.draws(st.drawn);
      st := st.(drawn := st.drawn + 1);
      st := st.(events := st.events + [Slept(pageDelay as real + Client.Jitter(0.5, 2.0, u))]);
    }

    /** The page loop of one search in `incremental_poll_all`; `false` when a page raised. */
    method PollPages(searchId: int, source: string, maxPages: int, pageDelay: int) returns (ok: bool, found: Found)
      modifies this
      ensures (ok, st, found) == PagesFrom(world, searchId, source, maxPages, pageDelay, 1, old(st), Found([], []))
    {
      ghost var goal := PagesFrom(world, searchId, source, maxPages, pageDelay, 1, st, Found([], []));
      found := Found([], []);
      var page := 1;
      while page <= maxPages
        invariant PagesFrom(world, searchId, source, maxPages, pageDelay, page, st, found) == goal
        decreases PagesLeft(maxPages, page)
      {
        var f := FetchPage(source, page);
        if f.Raised? {
          return false, found;
        }
        if |f.cards| == 0 {
          return true, found;
        }
        var flags := PageFlags(f.cards);
        var allNew := true !in flags;
        var ids, items := SavePage(searchId, f.cards, flags);
        found := Found(found.ids + ids, found.items + items);
        if !allNew {
          return true, found;
        }
        if page != maxPages {
          PauseBetweenPages(pageDelay);
        }
        page := page + 1;
      }
      return true, found;
    }

    /** What follows the page loop of a search. */
    method FinishSearch(s: Search, found: Found, cfg: PollConfig, last: bool)
      modifies this
      ensures st == Finished(world, s, found, cfg, last, old(st))
    {
      st := Touch(st, s.id);
      if |found.items| > 0 && cfg.bot && cfg.notifyChatId.Some? && cfg.notifyChatId.value != 0 {
        st := Report(st, s.id, found);
      }
      if !last {
        var extra := 0.0;
        if cfg.jitter > 0.0 {
          var u := world.draws(st.drawn);
          st := st.(drawn := st.drawn + 1);
          extra := Client.Jitter(0.0, cfg.jitter, u);
        }
        st := st.(events := st.events + [Slept(cfg.betweenDelay as real + extra)]);
      }
    }

    /** `incremental_poll_all(searches)`; `false` when a page raised and ended the run. */
    method PollAll(searches: seq<Search>, cfg: PollConfig) returns (ok: bool)
      modifies this
      ensures (ok, st) == SearchesFrom(world, searches, cfg, 0, old(st))
    {
      ghost var goal := SearchesFrom(world, searches, cfg, 0, st);
      for k := 0 to |searches|
        invariant SearchesFrom(world, searches, cfg, k, st) == goal
      {
        var s := searches[k];
        var pagesOk, found := PollPages(s.id, s.query, cfg.maxPages, cfg.pageDelay);
        if !pagesOk {
          return false;
        }
        FinishSearch(s, found, cfg, k == |searches| - 1);
      }
      return true;
    }

    /** `initial_collect_for_search` over the pages `fetch_pages` returned: every card is
        classified and upserted, page by page, the search is marked polled, and the number of
        cards saved is returned. */
    method InitialCollect(searchId: int, pages: seq<seq<ParsedCard>>) returns (saved: nat)
      modifies this
      ensures st == old(st).(db := SaveAll(world, old(st).db, searchId, Flatten(pages)),
                             events := old(st).events + [Touched(searchId)])
      ensures saved == TotalCards(pages)
    {
      saved := 0;
      for i := 0 to |pages|
        invariant st == old(st).(db := SaveAll(world, old(st).db, searchId, Flatten(pages[..i])))
        invariant saved == |Flatten(pages[..i])|
      {
        FlattenStep(pages, i);
        var page := pages[i];
        assert Flatten(pages[..i]) + page[..0] == Flatten(pages[..i]);
        for j := 0 to |page|
          invariant st == old(st).(db := SaveAll(world, old(st).db, searchId, Flatten(pages[..i]) + page[..j]))
          invariant saved == |Flatten(pages[..i])| + j
        {
          var c := page[j];
          TakeSnoc(page, j);
          AppendSnoc(Flatten(pages[..i]), page[..j], c);
          SaveSnoc(world, old(st).db, searchId, Flatten(pages[..i]) + page[..j], c);
          var cls := world.classify(c.title, c.description);
          var raw2 := WithClassification(Some(c.raw), cls);
          var u := ItemUpsert(searchId, c.externalId, c.url, c.title, c.price, c.city,
            c.description, c.sellerType, c.photosCount, c.status, raw2);
          assert u == ItemFor(world, searchId, c);
          var itemId := UpsertItem(u);
          saved := saved + 1;
        }
        assert page[..|page|] == page;
      }
      assert pages[..|pages|] == pages;
      FlattenLength(pages);
      st := Touch(st, searchId);
    }
  }
}
