// The taxonomy seed script: brands, families and variants are upserted in
// turn, each resolved against the ids of the level above, and the alias
// catalogue is turned into rows of the bulk alias insert.  The database is
// abstracted as the functions that give the id an upsert returns.

module Seed {
  import opened Text
  import opened Taxonomy
  import opened Aliases

  // ---------------------------------------------------------------------
  // Id maps
  // ---------------------------------------------------------------------

  /** Whether `ids.get(key)` is truthy: a missing key gives None, and an
      id of 0 counts as missing too. */
  predicate Resolves(ids: map<string, int>, key: string) {
    key in ids && ids[key] != 0
  }

  /** The dictionary left by a loop that, for each `x` of `xs` in order,
      either skips it (`idOf(x)` is None) or stores `idOf(x)` under
      `key(x)`, a later store overwriting an earlier one. */
  function IdMap<T>(xs: seq<T>, key: T -> string, idOf: T -> Option<int>): map<string, int>
    decreases |xs|
  {
    if xs == [] then map[]
    else
      var m := IdMap(xs[..|xs| - 1], key, idOf);
      var x := xs[|xs| - 1];
      if idOf(x).Some? then m[key(x) := idOf(x).value] else m
  }

  /** A key is in the map exactly when some element with that key was not
      skipped. */
  lemma {:induction false} IdMapDomain<T>(xs: seq<T>, key: T -> string, idOf: T -> Option<int>, k: string)
    ensures k in IdMap(xs, key, idOf) <==> exists i :: 0 <= i < |xs| && key(xs[i]) == k && idOf(xs[i]).Some?
    decreases |xs|
  {
    if xs != [] {
      var ys := xs[..|xs| - 1];
      IdMapDomain(ys, key, idOf, k);
      if k in IdMap(xs, key, idOf) && !(k in IdMap(ys, key, idOf)) {
        assert key(xs[|xs| - 1]) == k && idOf(xs[|xs| - 1]).Some?;
      }
      if exists i :: 0 <= i < |xs| && key(xs[i]) == k && idOf(xs[i]).Some? {
        var i :| 0 <= i < |xs| && key(xs[i]) == k && idOf(xs[i]).Some?;
        if i < |ys| {
          assert ys[i] == xs[i];
        }
      }
    }
  }

  /** The id stored under a key is the one of the last element with that
      key that was not skipped. */
  lemma {:induction false} IdMapLastWins<T>(xs: seq<T>, key: T -> string, idOf: T -> Option<int>, k: string)
    requires k in IdMap(xs, key, idOf)
    ensures exists i :: 0 <= i < |xs| && key(xs[i]) == k && idOf(xs[i]) == Some(IdMap(xs, key, idOf)[k]) &&
                        forall j :: i < j < |xs| && key(xs[j]) == k ==> idOf(xs[j]).None?
    decreases |xs|
  {
    var ys := xs[..|xs| - 1];
    var x := xs[|xs| - 1];
    if idOf(x).Some? && key(x) == k {
      assert key(xs[|xs| - 1]) == k;
    } else {
      IdMapLastWins(ys, key, idOf, k);
      var i :| 0 <= i < |ys| && key(ys[i]) == k && idOf(ys[i]) == Some(IdMap(ys, key, idOf)[k]) &&
               forall j :: i < j < |ys| && key(ys[j]) == k ==> idOf(ys[j]).None?;
      assert xs[i] == ys[i];
      forall j | i < j < |xs| && key(xs[j]) == k
        ensures idOf(xs[j]).None?
      {
        if j < |ys| {
          assert xs[j] == ys[j];
        }
      }
    }
  }

  /** The loops that fill `brand_id_by_norm`, `family_id_by_norm` and
      `variant_id_by_norm`: each element is upserted (or skipped) in
      order and its id stored under its normalised name. */
  method AssignIds<T>(xs: seq<T>, key: T -> string, idOf: T -> Option<int>) returns (ids: map<string, int>)
    ensures ids == IdMap(xs, key, idOf)
  {
    ids := map[];
    for i := 0 to |xs|
      invariant ids == IdMap(xs[..i], key, idOf)
    {
      assert xs[..i + 1][..i] == xs[..i];
      var id := idOf(xs[i]);
      if id.None? {
        continue;
      }
      ids := ids[key(xs[i]) := id.value];
    }
    assert xs[..|xs|] == xs;
  }

  function BrandKey(b: BrandDef): string { b.nameNorm }
  function FamilyKey(f: FamilyDef): string { f.familyNameNorm }
  function VariantKey(v: VariantDef): string { v.variantNameNorm }

  /** A brand is always upserted. */
  function BrandIdOf(upsertBrand: BrandDef -> int): BrandDef -> Option<int> {
    (b: BrandDef) => Some(upsertBrand(b))
  }

  /** A family is upserted under the id of its brand, and skipped when
      that brand has none. */
  function FamilyIdOf(brandIds: map<string, int>, upsertFamily: (int, FamilyDef) -> int): FamilyDef -> Option<int> {
    (f: FamilyDef) => if Resolves(brandIds, f.brandNorm) then Some(upsertFamily(brandIds[f.brandNorm], f)) else None
  }

  /** A variant is upserted under the id of its family, and skipped when
      that family has none. */
  function VariantIdOf(familyIds: map<string, int>, upsertVariant: (int, VariantDef) -> int): VariantDef -> Option<int> {
    (v: VariantDef) => if Resolves(familyIds, v.familyNameNorm) then Some(upsertVariant(familyIds[v.familyNameNorm], v)) else None
  }

  /** A family gets an id exactly when some family of that name has a
      brand with an id. */
  lemma FamilyIdsDomain(families: seq<FamilyDef>, brandIds: map<string, int>, upsertFamily: (int, FamilyDef) -> int, k: string)
    ensures k in IdMap(families, FamilyKey, FamilyIdOf(brandIds, upsertFamily)) <==>
      exists i :: 0 <= i < |families| && families[i].familyNameNorm == k && Resolves(brandIds, families[i].brandNorm)
  {
    IdMapDomain(families, FamilyKey, FamilyIdOf(brandIds, upsertFamily), k);
  }

  /** A variant gets an id exactly when some variant of that name has a
      family with an id. */
  lemma VariantIdsDomain(variants: seq<VariantDef>, familyIds: map<string, int>, upsertVariant: (int, VariantDef) -> int, k: string)
    ensures k in IdMap(variants, VariantKey, VariantIdOf(familyIds, upsertVariant)) <==>
      exists i :: 0 <= i < |variants| && variants[i].variantNameNorm == k && Resolves(familyIds, variants[i].familyNameNorm)
  {
    IdMapDomain(variants, VariantKey, VariantIdOf(familyIds, upsertVariant), k);
  }

  /** When the brand upsert never returns 0, every family whose brand is
      listed is upserted. */
  lemma ListedFamiliesResolve(c: Catalog, s: Store)
    requires c.brands == Brands() && ListedAndLower(c.families)
    requires forall b :: s.brand(b) != 0
    ensures forall f :: f in c.families ==> f.familyNameNorm in FamilyIds(c, s)
  {
    var bm := BrandIds(c, s);
    forall f | f in c.families
      ensures f.familyNameNorm in FamilyIds(c, s)
    {
      BrandResolves(s, f.brandNorm);
      var i :| 0 <= i < |c.families| && c.families[i] == f;
      FamilyIdsDomain(c.families, bm, s.family, f.familyNameNorm);
    }
  }

  /** When the brand upsert never returns 0, every listed brand resolves. */
  lemma BrandResolves(s: Store, n: string)
    requires forall b :: s.brand(b) != 0
    requires IsBrandNorm(n)
    ensures Resolves(IdMap(Brands(), BrandKey, BrandIdOf(s.brand)), n)
  {
    IdMapDomain(Brands(), BrandKey, BrandIdOf(s.brand), n);
    IdMapLastWins(Brands(), BrandKey, BrandIdOf(s.brand), n);
  }

  /** While the T14 family has no id, none of the four T14 variants gets
      one. */
  lemma T14VariantsSkipped(familyIds: map<string, int>, upsertVariant: (int, VariantDef) -> int)
    requires T14Norm !in familyIds
    ensures forall i :: 0 <= i < 4 ==> Variants()[i].variantNameNorm !in IdMap(Variants(), VariantKey, VariantIdOf(familyIds, upsertVariant))
  {
    forall i | 0 <= i < 4
      ensures Variants()[i].variantNameNorm !in IdMap(Variants(), VariantKey, VariantIdOf(familyIds, upsertVariant))
    {
      T14VariantNames(i);
      OrphanVariantSkipped(Variants(), familyIds, upsertVariant, Variants()[i].variantNameNorm);
    }
  }

  /** Whatever the upserts return, the T14 family gets no id, since no
      generated family carries its name. */
  lemma T14FamilyUnassigned(brandIds: map<string, int>, upsertFamily: (int, FamilyDef) -> int)
    ensures T14Norm !in IdMap(FamilyList(), FamilyKey, FamilyIdOf(brandIds, upsertFamily))
  {
    T14FamilyMissing();
    AbsentFamilyUnassigned(FamilyList(), brandIds, upsertFamily);
  }

  lemma AbsentFamilyUnassigned(families: seq<FamilyDef>, brandIds: map<string, int>, upsertFamily: (int, FamilyDef) -> int)
    requires LacksT14(families)
    ensures T14Norm !in IdMap(families, FamilyKey, FamilyIdOf(brandIds, upsertFamily))
  {
    FamilyIdsDomain(families, brandIds, upsertFamily, T14Norm);
  }

  /** A variant name all of whose variants belong to a family without an
      id gets no id. */
  lemma OrphanVariantSkipped(variants: seq<VariantDef>, familyIds: map<string, int>, upsertVariant: (int, VariantDef) -> int, k: string)
    requires forall i :: 0 <= i < |variants| && variants[i].variantNameNorm == k ==> variants[i].familyNameNorm !in familyIds
    ensures k !in IdMap(variants, VariantKey, VariantIdOf(familyIds, upsertVariant))
  {
    VariantIdsDomain(variants, familyIds, upsertVariant, k);
  }

  /** The name of each of the first four variants is carried only by
      variants of the T14 family. */
  lemma T14VariantNames(i: nat)
    requires i < 4
    ensures forall j :: 0 <= j < |Variants()| && Variants()[j].variantNameNorm == Variants()[i].variantNameNorm ==>
      Variants()[j].familyNameNorm == T14Norm
  {
  }

  // ---------------------------------------------------------------------
  // Alias rows
  // ---------------------------------------------------------------------

  /** A row of the bulk alias insert: one of the three target ids, then
      match type, pattern and weight. */
  datatype AliasRow = AliasRow(
    brandId: Option<int>,
    familyId: Option<int>,
    variantId: Option<int>,
    matchType: string,
    pattern: string,
    weight: int)

  /** The table constraint on aliases: at least one target id is set. */
  predicate HasTarget(r: AliasRow) {
    r.brandId.Some? || r.familyId.Some? || r.variantId.Some?
  }

  datatype Target = ToBrand | ToFamily | ToVariant

  /** The row an alias resolved to `id` becomes. */
  function RowFor(t: Target, id: int, a: AliasDef): AliasRow {
    AliasRow(
      if t.ToBrand? then Some(id) else None,
      if t.ToFamily? then Some(id) else None,
      if t.ToVariant? then Some(id) else None,
      a.matchType, a.pattern, a.weight)
  }

  /** Exactly the target id of kind `t` is set. */
  predicate Targets(r: AliasRow, t: Target) {
    r.brandId.Some? == t.ToBrand? && r.familyId.Some? == t.ToFamily? && r.variantId.Some? == t.ToVariant?
  }

  /** The rows one alias loop appends: an alias whose key does not resolve
      is dropped. */
  function RowsFor(aliases: seq<AliasDef>, ids: map<string, int>, t: Target): seq<AliasRow>
    decreases |aliases|
  {
    if aliases == [] then []
    else
      var rest := RowsFor(aliases[..|aliases| - 1], ids, t);
      var a := aliases[|aliases| - 1];
      if Resolves(ids, a.key) then rest + [RowFor(t, ids[a.key], a)] else rest
  }

  /** Every row targets exactly the kind it was built for, so it passes the
      table constraint, and there are no more rows than aliases. */
  lemma {:induction false} RowsForShape(aliases: seq<AliasDef>, ids: map<string, int>, t: Target)
    ensures |RowsFor(aliases, ids, t)| <= |aliases|
    ensures forall r :: r in RowsFor(aliases, ids, t) ==> Targets(r, t) && HasTarget(r)
    decreases |aliases|
  {
    if aliases != [] {
      RowsForShape(aliases[..|aliases| - 1], ids, t);
    }
  }

  /** A row is in the output exactly when it is the row of an alias whose
      key resolves. */
  lemma {:induction false} RowsForMembers(aliases: seq<AliasDef>, ids: map<string, int>, t: Target, r: AliasRow)
    ensures r in RowsFor(aliases, ids, t) <==>
      exists a :: a in aliases && Resolves(ids, a.key) && r == RowFor(t, ids[a.key], a)
    decreases |aliases|
  {
    if aliases != [] {
      var init := aliases[..|aliases| - 1];
      var last := aliases[|aliases| - 1];
      RowsForMembers(init, ids, t, r);
      assert aliases == init + [last];
      if exists a :: a in aliases && Resolves(ids, a.key) && r == RowFor(t, ids[a.key], a) {
        var a :| a in aliases && Resolves(ids, a.key) && r == RowFor(t, ids[a.key], a);
        if a != last {
          assert a in init;
        }
      }
    }
  }

  /** An alias loop with its counter of resolved aliases: it appends the
      rows of `RowsFor` to `rows0` and counts them. */
  method AppendRows(rows0: seq<AliasRow>, aliases: seq<AliasDef>, ids: map<string, int>, t: Target)
    returns (rows: seq<AliasRow>, added: nat)
    ensures rows == rows0 + RowsFor(aliases, ids, t)
    ensures added == |RowsFor(aliases, ids, t)|
  {
    rows := rows0;
    added := 0;
    for i := 0 to |aliases|
      invariant rows == rows0 + RowsFor(aliases[..i], ids, t)
      invariant added == |RowsFor(aliases[..i], ids, t)|
    {
      assert aliases[..i + 1][..i] == aliases[..i];
      var a := aliases[i];
      if Resolves(ids, a.key) {
        rows := rows + [RowFor(t, ids[a.key], a)];
        added := added + 1;
      }
    }
    assert aliases[..|aliases|] == aliases;
  }

  /** Appending rows whose first `k` aliases do not resolve leaves at most
      `|aliases| - k` rows. */
  lemma {:induction false} RowsForUnresolvedPrefix(aliases: seq<AliasDef>, ids: map<string, int>, t: Target, k: nat)
    requires k <= |aliases|
    requires forall i :: 0 <= i < k ==> !Resolves(ids, aliases[i].key)
    ensures |RowsFor(aliases, ids, t)| <= |aliases| - k
    decreases |aliases|
  {
    if aliases != [] {
      var init := aliases[..|aliases| - 1];
      if |aliases| - 1 < k {
        RowsForUnresolvedPrefix(init, ids, t, k - 1);
      } else {
        RowsForUnresolvedPrefix(init, ids, t, k);
      }
    }
  }

  // ---------------------------------------------------------------------
  // The seed run
  // ---------------------------------------------------------------------

  /** What the script reads from the taxonomy and alias catalogues. */
  datatype Catalog = Catalog(
    brands: seq<BrandDef>,
    families: seq<FamilyDef>,
    variants: seq<VariantDef>,
    brandAliases: seq<AliasDef>,
    regexAliases: seq<AliasDef>,
    variantAliases: seq<AliasDef>)

  /** The ids the three upserts return, as functions of what they write. */
  datatype Store = Store(
    brand: BrandDef -> int,
    family: (int, FamilyDef) -> int,
    variant: (int, VariantDef) -> int)

  function TheCatalog(): Catalog {
    Catalog(Brands(), FamilyList(), Variants(), BrandAliases(), BrandRegexAliases(), VariantAliases())
  }

  function BrandIds(c: Catalog, s: Store): map<string, int> {
    IdMap(c.brands, BrandKey, BrandIdOf(s.brand))
  }

  function FamilyIds(c: Catalog, s: Store): map<string, int> {
    IdMap(c.families, FamilyKey, FamilyIdOf(BrandIds(c, s), s.family))
  }

  function VariantIds(c: Catalog, s: Store): map<string, int> {
    IdMap(c.variants, VariantKey, VariantIdOf(FamilyIds(c, s), s.variant))
  }

  /** The generated family aliases, deduplicated. */
  function FamilyAliasList(c: Catalog): seq<AliasDef> {
    Uniq(AllFamilyAliases(c.families))
  }

  /** The rows handed to the bulk insert: brand tokens, brand regexes,
      generated family aliases, variant aliases, each section resolved
      against its id map. */
  function SeedRows(c: Catalog, s: Store): seq<AliasRow> {
    RowsFor(c.brandAliases, BrandIds(c, s), ToBrand) +
    RowsFor(c.regexAliases, BrandIds(c, s), ToBrand) +
    RowsFor(FamilyAliasList(c), FamilyIds(c, s), ToFamily) +
    RowsFor(c.variantAliases, VariantIds(c, s), ToVariant)
  }

  /** The seed script over a given catalogue, without its logging and
      connection handling.  It returns the alias rows and the two counters
      it logs. */
  method SeedFrom(c: Catalog, s: Store) returns (rows: seq<AliasRow>, famAdded: nat, varAdded: nat)
    ensures rows == SeedRows(c, s)
    ensures famAdded == |RowsFor(FamilyAliasList(c), FamilyIds(c, s), ToFamily)|
    ensures varAdded == |RowsFor(c.variantAliases, VariantIds(c, s), ToVariant)|
  {
    var brandIds := AssignIds(c.brands, BrandKey, BrandIdOf(s.brand));
    var familyIds := AssignIds(c.families, FamilyKey, FamilyIdOf(brandIds, s.family));
    var variantIds := AssignIds(c.variants, VariantKey, VariantIdOf(familyIds, s.variant));

    assert brandIds == BrandIds(c, s);
    assert familyIds == FamilyIds(c, s);
    assert variantIds == VariantIds(c, s);

    var familyAliases := BuildFamilyAliases(c.families);
    var ignored: nat;
    rows, ignored := AppendRows([], c.brandAliases, brandIds, ToBrand);
    assert rows == RowsFor(c.brandAliases, brandIds, ToBrand);
    rows, ignored := AppendRows(rows, c.regexAliases, brandIds, ToBrand);
    rows, famAdded := AppendRows(rows, familyAliases, familyIds, ToFamily);
    rows, varAdded := AppendRows(rows, c.variantAliases, variantIds, ToVariant);
  }

  /** The seed script: the catalogue is the taxonomy and alias data. */
  method Seed(s: Store) returns (rows: seq<AliasRow>, famAdded: nat, varAdded: nat)
    ensures rows == SeedRows(TheCatalog(), s)
    ensures famAdded == |RowsFor(FamilyAliasList(TheCatalog()), FamilyIds(TheCatalog(), s), ToFamily)|
    ensures varAdded == |RowsFor(TheCatalog().variantAliases, VariantIds(TheCatalog(), s), ToVariant)|
  {
    var families := Families();
    rows, famAdded, varAdded := SeedFrom(Catalog(Brands(), families, Variants(), BrandAliases(), BrandRegexAliases(), VariantAliases()), s);
  }

  /** Every seeded row satisfies the table constraint on alias targets. */
  lemma SeedRowsHaveTarget(c: Catalog, s: Store)
    ensures forall r :: r in SeedRows(c, s) ==> HasTarget(r)
  {
    RowsForShape(c.brandAliases, BrandIds(c, s), ToBrand);
    RowsForShape(c.regexAliases, BrandIds(c, s), ToBrand);
    RowsForShape(FamilyAliasList(c), FamilyIds(c, s), ToFamily);
    RowsForShape(c.variantAliases, VariantIds(c, s), ToVariant);
  }

  /** With families lacking the T14 family, as the generated ones do, the
      four T14 variant aliases never resolve, so at most the three Apple
      variant aliases become rows. */
  lemma VariantRowsAtMostThree(c: Catalog, s: Store)
    requires LacksT14(c.families) && c.variants == Variants() && c.variantAliases == VariantAliases()
    ensures |RowsFor(c.variantAliases, VariantIds(c, s), ToVariant)| <= 3
  {
    AbsentFamilyUnassigned(c.families, BrandIds(c, s), s.family);
    T14AliasesUnresolved(FamilyIds(c, s), s.variant);
    RowsForUnresolvedPrefix(c.variantAliases, VariantIds(c, s), ToVariant, 4);
  }

  /** While the T14 family has no id, the first four variant aliases (the
      T14 ones) do not resolve. */
  lemma T14AliasesUnresolved(familyIds: map<string, int>, upsertVariant: (int, VariantDef) -> int)
    requires T14Norm !in familyIds
    ensures forall i :: 0 <= i < 4 ==> !Resolves(IdMap(Variants(), VariantKey, VariantIdOf(familyIds, upsertVariant)), VariantAliases()[i].key)
  {
    T14VariantsSkipped(familyIds, upsertVariant);
    VariantAliasesShape();
  }

  /** The section a row belongs to, in the order the script appends them. */
  function Section(r: AliasRow): nat {
    if r.brandId.Some? then (if r.matchType == "regex" then 1 else 0)
    else if r.familyId.Some? then 2
    else 3
  }

  /** The section the row of alias `a` targeting `t` lands in. */
  function AliasSection(t: Target, a: AliasDef): nat {
    match t
    case ToBrand => if a.matchType == "regex" then 1 else 0
    case ToFamily => 2
    case ToVariant => 3
  }

  /** The rows of an alias list whose aliases all belong to section `s`
      lie in section `s`. */
  lemma RowsInSection(aliases: seq<AliasDef>, ids: map<string, int>, t: Target, s: nat)
    requires forall a :: a in aliases ==> AliasSection(t, a) == s
    ensures forall r :: r in RowsFor(aliases, ids, t) ==> Section(r) == s
  {
    forall r | r in RowsFor(aliases, ids, t)
      ensures Section(r) == s
    {
      RowsForMembers(aliases, ids, t, r);
    }
  }

  /** When no brand token alias is a regex and every brand regex alias is,
      brand tokens come first, then brand regexes, then family aliases,
      then variant aliases. */
  lemma SeedRowsOrdered(c: Catalog, s: Store)
    requires forall a :: a in c.brandAliases ==> a.matchType != "regex"
    requires forall a :: a in c.regexAliases ==> a.matchType == "regex"
    ensures var rows := SeedRows(c, s);
      forall i, j :: 0 <= i < j < |rows| ==> Section(rows[i]) <= Section(rows[j])
  {
    var a := RowsFor(c.brandAliases, BrandIds(c, s), ToBrand);
    var b := RowsFor(c.regexAliases, BrandIds(c, s), ToBrand);
    var f := RowsFor(FamilyAliasList(c), FamilyIds(c, s), ToFamily);
    var d := RowsFor(c.variantAliases, VariantIds(c, s), ToVariant);
    RowsInSection(c.brandAliases, BrandIds(c, s), ToBrand, 0);
    RowsInSection(c.regexAliases, BrandIds(c, s), ToBrand, 1);
    RowsInSection(FamilyAliasList(c), FamilyIds(c, s), ToFamily, 2);
    RowsInSection(c.variantAliases, VariantIds(c, s), ToVariant, 3);
    SectionsOrdered(a, b, f, d);
  }

  /** Four runs of rows in sections 0, 1, 2 and 3, concatenated in that
      order, are ordered by section. */
  lemma SectionsOrdered(a: seq<AliasRow>, b: seq<AliasRow>, f: seq<AliasRow>, d: seq<AliasRow>)
    requires forall r :: r in a ==> Section(r) == 0
    requires forall r :: r in b ==> Section(r) == 1
    requires forall r :: r in f ==> Section(r) == 2
    requires forall r :: r in d ==> Section(r) == 3
    ensures var rows := a + b + f + d;
      forall i, j :: 0 <= i < j < |rows| ==> Section(rows[i]) <= Section(rows[j])
  {
    var rows := a + b + f + d;
    forall k | 0 <= k < |rows|
      ensures Section(rows[k]) == if k < |a| then 0 else if k < |a| + |b| then 1 else if k < |a| + |b| + |f| then 2 else 3
    {
      if k < |a| {
        assert rows[k] == a[k];
      } else if k < |a| + |b| {
        assert rows[k] == b[k - |a|];
      } else if k < |a| + |b| + |f| {
        assert rows[k] == f[k - |a| - |b|];
      } else {
        assert rows[k] == d[k - |a| - |b| - |f|];
      }
    }
  }

  /** The seed's brand and regex alias lists meet the ordering lemma's
      conditions. */
  lemma TheSeedRowsOrdered(c: Catalog, s: Store)
    requires c.brandAliases == BrandAliases() && c.regexAliases == BrandRegexAliases()
    ensures var rows := SeedRows(c, s);
      forall i, j :: 0 <= i < j < |rows| ==> Section(rows[i]) <= Section(rows[j])
  {
    BrandTokensNotRegex();
    BrandRegexAliasesShape();
    SeedRowsOrdered(c, s);
  }

  /** No brand token alias has match type "regex". */
  lemma BrandTokensNotRegex()
    ensures forall a :: a in BrandAliases() ==> a.matchType != "regex"
  {
    BrandAliasesShape();
    forall a | a in BrandAliases()
      ensures a.matchType != "regex"
    {
      var i :| 0 <= i < |BrandAliases()| && BrandAliases()[i] == a;
    }
  }
}
