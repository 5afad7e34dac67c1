/** The connection lifecycle and the first-run seed of `src/helpers/database/db.ts`.
    The module-level `db` handle is the `open` flag of a `Database`; the tables it
    reaches live in the database file and outlast a close. */
module Db {
  import opened Wrappers
  import opened Schema

  // ---------------------------------------------------------------------------
  // Seed data
  // ---------------------------------------------------------------------------

  datatype SeedCategory = SeedCategory(name: string, description: string)

  /** A sample product; `category` names its seed category. */
  datatype SeedProduct = SeedProduct(name: string, price: real, category: string, sku: string, description: string, stock: int)

  const SeedCategories: seq<SeedCategory> := [
    SeedCategory("Beverages", "Drinks and beverages"),
    SeedCategory("Snacks", "Chips, candy, and snacks"),
    SeedCategory("Groceries", "General grocery items"),
    SeedCategory("Bakery", "Bread and baked goods"),
    SeedCategory("Dairy", "Milk, cheese, and dairy products")
  ]

  const SeedProducts: seq<SeedProduct> := [
    SeedProduct("Coca Cola", 2.50, "Beverages", "BEV001", "Classic Coca Cola 330ml", 50),
    SeedProduct("Pepsi", 2.25, "Beverages", "BEV002", "Pepsi 330ml", 45),
    SeedProduct("Orange Juice", 3.99, "Beverages", "BEV003", "Fresh orange juice 1L", 30),
    SeedProduct("Potato Chips", 1.99, "Snacks", "SNK001", "Classic potato chips 150g", 60),
    SeedProduct("Chocolate Bar", 1.50, "Snacks", "SNK002", "Milk chocolate bar 100g", 80),
    SeedProduct("Pretzels", 2.75, "Snacks", "SNK003", "Salted pretzels 200g", 40),
    SeedProduct("White Bread", 2.99, "Bakery", "BKY001", "Fresh white bread loaf", 25),
    SeedProduct("Croissant", 1.75, "Bakery", "BKY002", "Butter croissant", 35),
    SeedProduct("Whole Milk", 3.49, "Dairy", "DRY001", "Whole milk 1L", 40),
    SeedProduct("Cheddar Cheese", 4.99, "Dairy", "DRY002", "Aged cheddar cheese 250g", 30)
  ]

  /** Where a seed run got to: the tables, the `categoryIds` record filled so far, and the
      error that stopped it, if any. Rows inserted before an error stay (no transaction). */
  datatype Seeding = Seeding(tables: Tables, categoryIds: map<string, int>, error: Option<DbError>)

  /** The `category_id` bound for a seed product: `categoryIds[product.category]`. */
  function SeedCategoryRef(p: SeedProduct, ids: map<string, int>): Option<int> {
    if p.category in ids then Some(ids[p.category]) else None
  }

  /** The column values of the seed INSERT: no image, the stock given explicitly. */
  function SeedInsert(p: SeedProduct, ids: map<string, int>): NewProduct {
    NewProduct(p.name, p.price, SeedCategoryRef(p, ids), p.sku, None, Some(p.description), p.stock)
  }

  /** The row a seed product becomes under id `k`. */
  function SeedRow(p: SeedProduct, ids: map<string, int>, k: int, now: string): ProductRow {
    ProductRow(k, p.name, p.price, SeedCategoryRef(p, ids), p.sku, None, Some(p.description), p.stock, now, now)
  }

  /** The category loop: inserts `cs` in order, recording each new id under its name. */
  function SeedCategoriesFrom(t: Tables, cs: seq<SeedCategory>, ids: map<string, int>, now: string): (r: Seeding)
    requires IdsInRange(t)
    ensures IdsInRange(r.tables) && (Valid(t) ==> Valid(r.tables))
    decreases |cs|
  {
    if cs == [] then Seeding(t, ids, None)
    else
      match InsertCategory(t, cs[0].name, Some(cs[0].description), now)
      case Failure(e) => Seeding(t, ids, Some(e))
      case Success(v) => SeedCategoriesFrom(v.0, cs[1..], ids[cs[0].name := v.1], now)
  }

  /** The product loop: inserts `ps` in order, stopping at the first failing INSERT. */
  function SeedProductsFrom(t: Tables, ps: seq<SeedProduct>, ids: map<string, int>, now: string): (r: Seeding)
    requires IdsInRange(t)
    ensures IdsInRange(r.tables) && (Valid(t) ==> Valid(r.tables))
    ensures r.categoryIds == ids
    ensures r.tables.categories == t.categories
    decreases |ps|
  {
    if ps == [] then Seeding(t, ids, None)
    else
      match InsertProduct(t, SeedInsert(ps[0], ids), now)
      case Failure(e) => Seeding(t, ids, Some(e))
      case Success(v) => SeedProductsFrom(v.0, ps[1..], ids, now)
  }

  /** The seed run over the given category and product lists. */
  function SeedWith(t: Tables, cs: seq<SeedCategory>, ps: seq<SeedProduct>, now: string): (r: Seeding)
    requires IdsInRange(t)
    ensures IdsInRange(r.tables) && (Valid(t) ==> Valid(r.tables))
  {
    if |t.categories| > 0 then Seeding(t, map[], None)
    else
      var c := SeedCategoriesFrom(t, cs, map[], now);
      if c.error.Some? then c else SeedProductsFrom(c.tables, ps, c.categoryIds, now)
  }

  /** `seedInitialData`: nothing when the categories table has rows, otherwise the
      category loop followed by the product loop over the sample data. */
  function Seed(t: Tables, now: string): (r: Seeding)
    requires IdsInRange(t)
    ensures IdsInRange(r.tables) && (Valid(t) ==> Valid(r.tables))
  {
    SeedWith(t, SeedCategories, SeedProducts, now)
  }

  // ---------------------------------------------------------------------------
  // What seeding does
  // ---------------------------------------------------------------------------

  /** Some category already has this name. */
  predicate NameUsed(t: Tables, name: string) {
    exists k :: k in t.categories && t.categories[k].name == name
  }

  /** Some product already has this SKU. */
  predicate SkuUsed(t: Tables, sku: string) {
    exists k :: k in t.products && t.products[k].sku == sku
  }

  /** The table `m` holds `row` under id `k`. */
  predicate RowAt<R(==)>(m: map<int, R>, k: int, row: R) {
    k in m && m[k] == row
  }

  /** The products of `ps` sit under consecutive ids after `last`, as the seed INSERT
      writes them. */
  predicate SeedRowsAt(products: map<int, ProductRow>, last: int, ps: seq<SeedProduct>, ids: map<string, int>, now: string) {
    forall j :: 0 <= j < |ps| ==> RowAt(products, last + 1 + j, SeedRow(ps[j], ids, last + 1 + j, now))
  }

  /** Row `k` is the sample product `p`, referencing a category named as `p` names it. */
  predicate SeededProduct(t: Tables, k: int, p: SeedProduct) {
    && k in t.products
    && var row := t.products[k];
    && row.name == p.name && row.price == p.price && row.sku == p.sku
    && row.description == Some(p.description) && row.stock == p.stock
    && row.categoryId.Some? && row.categoryId.value in t.categories
    && t.categories[row.categoryId.value].name == p.category
  }

  /** The categories of `cs` sit under consecutive ids after `last`, stamped `now`. */
  predicate CategoriesAt(categories: map<int, CategoryRow>, last: int, cs: seq<SeedCategory>, now: string) {
    forall j :: 0 <= j < |cs| ==>
      RowAt(categories, last + 1 + j, CategoryRow(last + 1 + j, cs[j].name, Some(cs[j].description), now, now))
  }

  /** Every product of `ps` is seeded, under consecutive ids after `last`. */
  predicate AllSeeded(t: Tables, last: int, ps: seq<SeedProduct>) {
    forall j :: 0 <= j < |ps| ==> SeededProduct(t, last + 1 + j, ps[j])
  }

  predicate DistinctNames(cs: seq<SeedCategory>) {
    forall i, j :: 0 <= i < j < |cs| ==> cs[i].name != cs[j].name
  }

  predicate DistinctSkus(ps: seq<SeedProduct>) {
    forall i, j :: 0 <= i < j < |ps| ==> ps[i].sku != ps[j].sku
  }

  function CategoryNames(cs: seq<SeedCategory>): set<string> {
    set i | 0 <= i < |cs| :: cs[i].name
  }

  /** Every product's `category` is the name of one of `cs`. */
  predicate CategoriesNamed(ps: seq<SeedProduct>, cs: seq<SeedCategory>) {
    forall j :: 0 <= j < |ps| ==> ps[j].category in CategoryNames(cs)
  }

  /** The five sample categories have distinct names. */
  lemma SeedNamesDistinct()
    ensures DistinctNames(SeedCategories)
  {
    forall i, j | 0 <= i < j < |SeedCategories|
      ensures SeedCategories[i].name != SeedCategories[j].name
    {
      assert SeedCategories[i].name[0] != SeedCategories[j].name[0] || SeedCategories[i].name[1] != SeedCategories[j].name[1];
    }
  }

  /** The ten sample products have distinct SKUs. */
  lemma SeedSkusDistinct()
    ensures DistinctSkus(SeedProducts)
  {
    forall i, j | 0 <= i < j < |SeedProducts|
      ensures SeedProducts[i].sku != SeedProducts[j].sku
    {
      assert |SeedProducts[i].sku| == 6 && |SeedProducts[j].sku| == 6;
      assert SeedProducts[i].sku[0] != SeedProducts[j].sku[0] || SeedProducts[i].sku[1] != SeedProducts[j].sku[1]
        || SeedProducts[i].sku[5] != SeedProducts[j].sku[5];
    }
  }

  /** Every sample product names one of the sample categories. */
  lemma SeedProductsCategorised()
    ensures CategoriesNamed(SeedProducts, SeedCategories)
  {
    forall j | 0 <= j < |SeedProducts|
      ensures SeedProducts[j].category in CategoryNames(SeedCategories)
    {
      var c := SeedProducts[j].category;
      var i := if c == "Beverages" then 0 else if c == "Snacks" then 1 else if c == "Bakery" then 3 else 4;
      assert SeedCategories[i].name == c;
    }
  }

  lemma NameUsedAfterInsert(t: Tables, id: int, row: CategoryRow, name: string)
    requires id !in t.categories
    ensures NameUsed(t.(categories := t.categories[id := row]), name) <==> NameUsed(t, name) || row.name == name
  {
    var t1 := t.(categories := t.categories[id := row]);
    if NameUsed(t, name) {
      var k :| k in t.categories && t.categories[k].name == name;
      assert t1.categories[k] == t.categories[k];
    }
    if row.name == name {
      assert t1.categories[id] == row;
    }
  }

  lemma SkuUsedAfterInsert(t: Tables, id: int, row: ProductRow, sku: string)
    requires id !in t.products
    ensures SkuUsed(t.(products := t.products[id := row]), sku) <==> SkuUsed(t, sku) || row.sku == sku
  {
    var t1 := t.(products := t.products[id := row]);
    if SkuUsed(t, sku) {
      var k :| k in t.products && t.products[k].sku == sku;
      assert t1.products[k] == t.products[k];
    }
    if row.sku == sku {
      assert t1.products[id] == row;
    }
  }

  /** One seed category insert with a fresh name succeeds under the next id. */
  lemma SeedCategoryStep(t: Tables, c: SeedCategory, now: string)
    requires IdsInRange(t) && !NameUsed(t, c.name)
    ensures var id := t.lastCategoryId + 1;
      var r := InsertCategory(t, c.name, Some(c.description), now);
      && r.Success? && r.value.1 == id && id !in t.categories
      && r.value.0 == t.(categories := t.categories[id := CategoryRow(id, c.name, Some(c.description), now, now)], lastCategoryId := id)
  {
    assert !NameTaken(t, c.name, t.lastCategoryId + 1);
  }

  /** One seed product insert fails exactly when its SKU is taken, and then on the UNIQUE
      constraint; its category reference always satisfies the foreign key. */
  lemma SeedProductStep(t: Tables, p: SeedProduct, ids: map<string, int>, now: string)
    requires IdsInRange(t)
    requires forall n :: n in ids ==> ids[n] in t.categories
    ensures var id := t.lastProductId + 1;
      var r := InsertProduct(t, SeedInsert(p, ids), now);
      && (r.Success? <==> !SkuUsed(t, p.sku))
      && (r.Failure? ==> r.error == DuplicateSku)
      && (r.Success? ==>
            && id !in t.products
            && r.value.0.products == t.products[id := SeedRow(p, ids, id, now)]
            && r.value.0.lastProductId == id
            && r.value.0.categories == t.categories)
  {
    var id := t.lastProductId + 1;
    assert SkuTaken(t, p.sku, id) <==> SkuUsed(t, p.sku);
    assert CategoryRefOk(t, SeedInsert(p, ids).categoryId);
  }

  /** A successful seed product insert lands under the next id. */
  lemma SeedProductInserted(t: Tables, p: SeedProduct, ids: map<string, int>, now: string)
    requires IdsInRange(t)
    requires InsertProduct(t, SeedInsert(p, ids), now).Success?
    ensures var id := t.lastProductId + 1;
      var t' := InsertProduct(t, SeedInsert(p, ids), now).value.0;
      && id !in t.products
      && t'.products == t.products[id := SeedRow(p, ids, id, now)]
      && t'.lastProductId == id && t'.categories == t.categories
  {
  }

  /** The premises of the category loop carry over to the rest of the list. */
  lemma FreshNamesStep(t: Tables, cs: seq<SeedCategory>, now: string)
    requires IdsInRange(t) && DistinctNames(cs) && cs != []
    requires forall j :: 0 <= j < |cs| ==> !NameUsed(t, cs[j].name)
    ensures var t1 := t.(categories := t.categories[t.lastCategoryId + 1 := CategoryRow(t.lastCategoryId + 1, cs[0].name, Some(cs[0].description), now, now)],
                         lastCategoryId := t.lastCategoryId + 1);
      && DistinctNames(cs[1..])
      && (forall j :: 0 <= j < |cs[1..]| ==> !NameUsed(t1, cs[1..][j].name) && cs[1..][j].name != cs[0].name)
  {
    SeedCategoryStep(t, cs[0], now);
    var id := t.lastCategoryId + 1;
    var row := CategoryRow(id, cs[0].name, Some(cs[0].description), now, now);
    var rest := cs[1..];
    forall j | 0 <= j < |rest|
      ensures rest[j].name != cs[0].name
    {
      assert rest[j] == cs[j + 1];
    }
    forall j | 0 <= j < |rest|
      ensures !NameUsed(t.(categories := t.categories[id := row], lastCategoryId := id), rest[j].name)
    {
      assert rest[j] == cs[j + 1];
      NameUsedAfterInsert(t, id, row, rest[j].name);
    }
    forall i, j | 0 <= i < j < |rest|
      ensures rest[i].name != rest[j].name
    {
      assert rest[i] == cs[i + 1] && rest[j] == cs[j + 1];
    }
  }

  /** Inserting categories with fresh, distinct names never fails; each lands under the next
      id, and every category already there is kept. */
  lemma {:induction false} SeedCategoriesOutcome(t: Tables, cs: seq<SeedCategory>, ids: map<string, int>, now: string)
    requires IdsInRange(t) && DistinctNames(cs)
    requires forall j :: 0 <= j < |cs| ==> !NameUsed(t, cs[j].name)
    ensures var r := SeedCategoriesFrom(t, cs, ids, now);
      && r.error.None?
      && r.tables.products == t.products && r.tables.lastProductId == t.lastProductId
      && r.tables.lastCategoryId == t.lastCategoryId + |cs|
      && (forall k :: k in r.tables.categories <==> k in t.categories || t.lastCategoryId < k <= t.lastCategoryId + |cs|)
      && (forall k :: k in t.categories ==> r.tables.categories[k] == t.categories[k])
      && CategoriesAt(r.tables.categories, t.lastCategoryId, cs, now)
    decreases |cs|
  {
    if cs != [] {
      SeedCategoryStep(t, cs[0], now);
      FreshNamesStep(t, cs, now);
      var id := t.lastCategoryId + 1;
      var t1 := InsertCategory(t, cs[0].name, Some(cs[0].description), now).value.0;
      var rest := cs[1..];
      SeedCategoriesOutcome(t1, rest, ids[cs[0].name := id], now);
      var r := SeedCategoriesFrom(t1, rest, ids[cs[0].name := id], now);
      assert r == SeedCategoriesFrom(t, cs, ids, now);
      forall k | k in t.categories
        ensures r.tables.categories[k] == t.categories[k]
      {
        assert t1.categories[k] == t.categories[k];
      }
      assert CategoriesAt(r.tables.categories, t.lastCategoryId, cs, now) by {
        forall j | 0 <= j < |cs|
          ensures RowAt(r.tables.categories, t.lastCategoryId + 1 + j, CategoryRow(t.lastCategoryId + 1 + j, cs[j].name, Some(cs[j].description), now, now))
        {
          if j > 0 {
            assert cs[j] == rest[j - 1];
          }
        }
      }
    }
  }

  /** The category loop records each inserted category's id under its name: afterwards
      every name of `cs` is recorded, and every recorded id is a category of that name. */
  lemma {:induction false} SeedCategoriesIds(t: Tables, cs: seq<SeedCategory>, ids: map<string, int>, now: string)
    requires IdsInRange(t) && DistinctNames(cs)
    requires forall j :: 0 <= j < |cs| ==> !NameUsed(t, cs[j].name)
    requires forall n :: n in ids ==> ids[n] in t.categories && t.categories[ids[n]].name == n
    ensures var r := SeedCategoriesFrom(t, cs, ids, now);
      && CategoryNames(cs) <= r.categoryIds.Keys
      && (forall n :: n in r.categoryIds ==> r.categoryIds[n] in r.tables.categories && r.tables.categories[r.categoryIds[n]].name == n)
    decreases |cs|
  {
    if cs != [] {
      SeedCategoryStep(t, cs[0], now);
      FreshNamesStep(t, cs, now);
      var id := t.lastCategoryId + 1;
      var t1 := InsertCategory(t, cs[0].name, Some(cs[0].description), now).value.0;
      var ids1 := ids[cs[0].name := id];
      forall n | n in ids1
        ensures ids1[n] in t1.categories && t1.categories[ids1[n]].name == n
      {
        if n != cs[0].name {
          assert t1.categories[ids[n]] == t.categories[ids[n]];
        }
      }
      SeedCategoriesIds(t1, cs[1..], ids1, now);
      SeedIdsGrow(t1, cs[1..], ids1, now);
      forall i | 0 <= i < |cs|
        ensures cs[i].name in SeedCategoriesFrom(t1, cs[1..], ids1, now).categoryIds
      {
        if i > 0 {
          assert cs[i] == cs[1..][i - 1];
        }
      }
    }
  }

  /** The category loop leaves the products table alone. */
  lemma {:induction false} SeedCategoriesKeepProducts(t: Tables, cs: seq<SeedCategory>, ids: map<string, int>, now: string)
    requires IdsInRange(t)
    ensures var r := SeedCategoriesFrom(t, cs, ids, now);
      r.tables.products == t.products && r.tables.lastProductId == t.lastProductId
    decreases |cs|
  {
    if cs != [] {
      match InsertCategory(t, cs[0].name, Some(cs[0].description), now)
      case Failure(_) =>
      case Success(v) =>
        SeedCategoriesKeepProducts(v.0, cs[1..], ids[cs[0].name := v.1], now);
    }
  }

  /** The category loop never forgets a recorded name. */
  lemma {:induction false} SeedIdsGrow(t: Tables, cs: seq<SeedCategory>, ids: map<string, int>, now: string)
    requires IdsInRange(t)
    ensures ids.Keys <= SeedCategoriesFrom(t, cs, ids, now).categoryIds.Keys
    decreases |cs|
  {
    if cs != [] {
      match InsertCategory(t, cs[0].name, Some(cs[0].description), now)
      case Failure(_) =>
      case Success(v) =>
        SeedIdsGrow(v.0, cs[1..], ids[cs[0].name := v.1], now);
    }
  }

  /** The product loop succeeds exactly when none of the (distinct) SKUs is already taken;
      a failure is the UNIQUE constraint on SKU, and categories are never touched. */
  lemma {:induction false} SeedProductsOutcome(t: Tables, ps: seq<SeedProduct>, ids: map<string, int>, now: string)
    requires IdsInRange(t) && DistinctSkus(ps)
    requires forall n :: n in ids ==> ids[n] in t.categories
    ensures var r := SeedProductsFrom(t, ps, ids, now);
      && (r.error.None? <==> forall j :: 0 <= j < |ps| ==> !SkuUsed(t, ps[j].sku))
      && (r.error.Some? ==> r.error.value == DuplicateSku)
    decreases |ps|
  {
    if ps != [] {
      SeedProductStep(t, ps[0], ids, now);
      var id := t.lastProductId + 1;
      var r0 := InsertProduct(t, SeedInsert(ps[0], ids), now);
      if r0.Success? {
        var t1 := r0.value.0;
        var rest := ps[1..];
        assert DistinctSkus(rest) by {
          forall i, j | 0 <= i < j < |rest|
            ensures rest[i].sku != rest[j].sku
          {
            assert rest[i] == ps[i + 1] && rest[j] == ps[j + 1];
          }
        }
        SeedProductsOutcome(t1, rest, ids, now);
        forall j | 0 <= j < |rest|
          ensures SkuUsed(t1, rest[j].sku) <==> SkuUsed(t, rest[j].sku)
        {
          assert rest[j] == ps[j + 1];
          SkuUsedAfterInsert(t, id, SeedRow(ps[0], ids, id, now), rest[j].sku);
        }
        assert forall j :: 1 <= j < |ps| ==> ps[j] == rest[j - 1];
      }
    }
  }

  /** A successful product loop keeps every row that was there before. */
  lemma {:induction false} SeedProductsKeep(t: Tables, ps: seq<SeedProduct>, ids: map<string, int>, now: string, k: int)
    requires IdsInRange(t)
    requires forall n :: n in ids ==> ids[n] in t.categories
    requires SeedProductsFrom(t, ps, ids, now).error.None?
    requires k in t.products
    ensures RowAt(SeedProductsFrom(t, ps, ids, now).tables.products, k, t.products[k])
    decreases |ps|
  {
    if ps != [] {
      SeedProductInserted(t, ps[0], ids, now);
      var t1 := InsertProduct(t, SeedInsert(ps[0], ids), now).value.0;
      SeedProductsKeep(t1, ps[1..], ids, now, k);
    }
  }

  /** After a successful product loop the `j`-th product sits under the `j`-th id after
      the last one. */
  lemma {:induction false} SeedProductAt(t: Tables, ps: seq<SeedProduct>, ids: map<string, int>, now: string, j: nat)
    requires IdsInRange(t)
    requires forall n :: n in ids ==> ids[n] in t.categories
    requires SeedProductsFrom(t, ps, ids, now).error.None?
    requires j < |ps|
    ensures RowAt(SeedProductsFrom(t, ps, ids, now).tables.products, t.lastProductId + 1 + j, SeedRow(ps[j], ids, t.lastProductId + 1 + j, now))
    decreases |ps|
  {
    SeedProductInserted(t, ps[0], ids, now);
    var id := t.lastProductId + 1;
    var t1 := InsertProduct(t, SeedInsert(ps[0], ids), now).value.0;
    if j == 0 {
      SeedProductsKeep(t1, ps[1..], ids, now, id);
    } else {
      SeedProductAt(t1, ps[1..], ids, now, j - 1);
      assert ps[1..][j - 1] == ps[j];
    }
  }

  /** After a successful product loop every product sits under the next id. */
  lemma SeedProductsRows(t: Tables, ps: seq<SeedProduct>, ids: map<string, int>, now: string)
    requires IdsInRange(t)
    requires forall n :: n in ids ==> ids[n] in t.categories
    requires SeedProductsFrom(t, ps, ids, now).error.None?
    ensures SeedRowsAt(SeedProductsFrom(t, ps, ids, now).tables.products, t.lastProductId, ps, ids, now)
  {
    forall j | 0 <= j < |ps|
      ensures RowAt(SeedProductsFrom(t, ps, ids, now).tables.products, t.lastProductId + 1 + j, SeedRow(ps[j], ids, t.lastProductId + 1 + j, now))
    {
      SeedProductAt(t, ps, ids, now, j);
    }
  }

  /** A successful product loop adds exactly one row per product, each under a fresh id. */
  lemma {:induction false} SeedProductsCount(t: Tables, ps: seq<SeedProduct>, ids: map<string, int>, now: string)
    requires IdsInRange(t)
    requires forall n :: n in ids ==> ids[n] in t.categories
    requires SeedProductsFrom(t, ps, ids, now).error.None?
    ensures |SeedProductsFrom(t, ps, ids, now).tables.products| == |t.products| + |ps|
    ensures SeedProductsFrom(t, ps, ids, now).tables.lastProductId == t.lastProductId + |ps|
    decreases |ps|
  {
    if ps != [] {
      SeedProductInserted(t, ps[0], ids, now);
      var t1 := InsertProduct(t, SeedInsert(ps[0], ids), now).value.0;
      SeedProductsCount(t1, ps[1..], ids, now);
    }
  }

  /** Seeding an empty categories table over well-formed lists fails exactly when one of
      the SKUs is already taken, and then only on the UNIQUE constraint on SKU. */
  lemma SeedWithOutcome(t: Tables, cs: seq<SeedCategory>, ps: seq<SeedProduct>, now: string)
    requires IdsInRange(t) && |t.categories| == 0
    requires DistinctNames(cs) && DistinctSkus(ps)
    ensures var r := SeedWith(t, cs, ps, now);
      && (r.error.None? <==> forall j :: 0 <= j < |ps| ==> !SkuUsed(t, ps[j].sku))
      && (r.error.Some? ==> r.error.value == DuplicateSku)
  {
    assert t.categories == map[];
    SeedCategoriesOutcome(t, cs, map[], now);
    SeedCategoriesIds(t, cs, map[], now);
    var c := SeedCategoriesFrom(t, cs, map[], now);
    SeedProductsOutcome(c.tables, ps, c.categoryIds, now);
  }

  /** A successful seed of an empty categories table holds exactly the new categories and
      one more product per entry. */
  lemma SeedWithShape(t: Tables, cs: seq<SeedCategory>, ps: seq<SeedProduct>, now: string)
    requires IdsInRange(t) && |t.categories| == 0 && DistinctNames(cs)
    requires SeedWith(t, cs, ps, now).error.None?
    ensures var r := SeedWith(t, cs, ps, now);
      && (forall k :: k in r.tables.categories <==> t.lastCategoryId < k <= t.lastCategoryId + |cs|)
      && CategoriesAt(r.tables.categories, t.lastCategoryId, cs, now)
      && |r.tables.products| == |t.products| + |ps|
  {
    assert t.categories == map[];
    SeedCategoriesOutcome(t, cs, map[], now);
    SeedCategoriesIds(t, cs, map[], now);
    var c := SeedCategoriesFrom(t, cs, map[], now);
    SeedProductsCount(c.tables, ps, c.categoryIds, now);
  }

  /** After a successful seed of an empty categories table each product is in place and
      references the seeded category its entry names. */
  lemma SeedWithRows(t: Tables, cs: seq<SeedCategory>, ps: seq<SeedProduct>, now: string)
    requires IdsInRange(t) && |t.categories| == 0
    requires DistinctNames(cs) && CategoriesNamed(ps, cs)
    requires SeedWith(t, cs, ps, now).error.None?
    ensures AllSeeded(SeedWith(t, cs, ps, now).tables, t.lastProductId, ps)
  {
    assert t.categories == map[];
    SeedCategoriesIds(t, cs, map[], now);
    SeedCategoriesKeepProducts(t, cs, map[], now);
    var c := SeedCategoriesFrom(t, cs, map[], now);
    var ids := c.categoryIds;
    SeedProductsRows(c.tables, ps, ids, now);
    var r := SeedProductsFrom(c.tables, ps, ids, now).tables;
    assert r == SeedWith(t, cs, ps, now).tables;
    SeededProducts(r, t.lastProductId, cs, ps, ids, now);
  }

  /** Products inserted under consecutive ids with `category_id` looked up by name in a
      record that names live categories correctly are seeded products. */
  lemma SeededProducts(r: Tables, last: int, cs: seq<SeedCategory>, ps: seq<SeedProduct>, ids: map<string, int>, now: string)
    requires SeedRowsAt(r.products, last, ps, ids, now)
    requires CategoriesNamed(ps, cs) && CategoryNames(cs) <= ids.Keys
    requires forall n :: n in ids ==> ids[n] in r.categories && r.categories[ids[n]].name == n
    ensures AllSeeded(r, last, ps)
  {
    forall j | 0 <= j < |ps|
      ensures SeededProduct(r, last + 1 + j, ps[j])
    {
      assert ps[j].category in CategoryNames(cs);
    }
  }

  /** `seedInitialData` on an empty categories table: the five sample categories, and the
      ten sample products unless one of their SKUs is already taken. */
  lemma SeedContents(t: Tables, now: string)
    requires IdsInRange(t) && |t.categories| == 0
    ensures var r := Seed(t, now);
      && (r.error.None? <==> forall j :: 0 <= j < |SeedProducts| ==> !SkuUsed(t, SeedProducts[j].sku))
      && (r.error.Some? ==> r.error.value == DuplicateSku)
      && (r.error.None? ==>
            && (forall k :: k in r.tables.categories <==> t.lastCategoryId < k <= t.lastCategoryId + 5)
            && CategoriesAt(r.tables.categories, t.lastCategoryId, SeedCategories, now)
            && |r.tables.products| == |t.products| + 10
            && AllSeeded(r.tables, t.lastProductId, SeedProducts))
  {
    SeedNamesDistinct();
    SeedSkusDistinct();
    SeedProductsCategorised();
    SeedWithOutcome(t, SeedCategories, SeedProducts, now);
    if Seed(t, now).error.None? {
      SeedWithShape(t, SeedCategories, SeedProducts, now);
      SeedWithRows(t, SeedCategories, SeedProducts, now);
    }
  }

  /** A non-empty categories table is left alone. */
  lemma SeedSkipsPopulated(t: Tables, now: string)
    requires IdsInRange(t) && |t.categories| > 0
    ensures Seed(t, now).tables == t && Seed(t, now).error.None?
  {
  }

  // ---------------------------------------------------------------------------
  // The connection
  // ---------------------------------------------------------------------------

  /** The database file and the module-level connection handle over it. */
  class Database {
    /** `db !== null`. */
    var open: bool
    var tables: Tables

    predicate Valid()
      reads this
    {
      Schema.Valid(tables)
    }

    /** The application starts with no connection over whatever the file holds. */
    constructor (file: Tables)
      requires Schema.Valid(file)
      ensures Valid() && !open && tables == file
    {
      open := false;
      tables := file;
    }

    /** `getDatabase`: the connection, or the "not initialized" error when there is none. */
    function GetDatabase(): (r: Result<Tables, DbError>)
      reads this
      ensures r.Success? <==> open
      ensures r.Success? ==> r.value == tables
      ensures r.Failure? ==> Message(r.error) == "Database not initialized. Call initializeDatabase() first."
    {
      if !open then Failure(NotInitialized) else Success(tables)
    }

    /** `initializeDatabase`. An open connection is returned untouched. Otherwise the file is
        opened (`openError` is how that, the pragma or CREATE TABLE may fail), the tables
        are created if missing and the seed runs; any failure drops the handle and rethrows. */
    method InitializeDatabase(openError: Option<string>, now: string) returns (r: Result<Tables, DbError>)
      requires Valid()
      modifies this
      ensures Valid()
      ensures old(open) ==> open && tables == old(tables) && r == Success(tables)
      ensures !old(open) && openError.Some? ==>
        !open && tables == old(tables) && r == Failure(OpenFailed(openError.value))
      ensures !old(open) && openError.None? ==>
        var s := Seed(old(tables), now);
        && tables == s.tables
        && (open <==> s.error.None?)
        && r == (if s.error.None? then Success(s.tables) else Failure(s.error.value))
    {
      if open {
        return Success(tables);
      }
      if openError.Some? {
        return Failure(OpenFailed(openError.value));
      }
      open := true;
      // CREATE TABLE IF NOT EXISTS leaves tables already in the file as they are.
      var err := SeedInitialData(now);
      if err.Some? {
        open := false;
        return Failure(err.value);
      }
      return Success(tables);
    }

    /** `closeDatabase`: drops the handle; nothing happens when there is none. */
    method CloseDatabase()
      modifies this
      ensures !open && tables == old(tables)
    {
      if open {
        open := false;
      }
    }

    /** `seedInitialData`, run on the open connection. */
    method SeedInitialData(now: string) returns (err: Option<DbError>)
      requires open && Valid()
      modifies this
      ensures open && Valid()
      ensures var s := Seed(old(tables), now); tables == s.tables && err == s.error
    {
      if |tables.categories| > 0 {
        return None;
      }
      var categoryIds;
      categoryIds, err := InsertSeedCategories(SeedCategories, now);
      if err.Some? {
        return;
      }
      err := InsertSeedProducts(SeedProducts, categoryIds, now);
    }

    /** The category loop of `seedInitialData`, filling `categoryIds`. */
    method InsertSeedCategories(cs: seq<SeedCategory>, now: string) returns (categoryIds: map<string, int>, err: Option<DbError>)
      requires open && Valid()
      modifies this
      ensures open && Valid()
      ensures var s := SeedCategoriesFrom(old(tables), cs, map[], now);
        tables == s.tables && categoryIds == s.categoryIds && err == s.error
    {
      ghost var t0 := tables;
      categoryIds := map[];
      var i := 0;
      while i < |cs|
        invariant 0 <= i <= |cs|
        invariant open && Schema.Valid(tables)
        invariant SeedCategoriesFrom(t0, cs, map[], now) == SeedCategoriesFrom(tables, cs[i..], categoryIds, now)
      {
        assert cs[i..][1..] == cs[i + 1..];
        var result := InsertCategory(tables, cs[i].name, Some(cs[i].description), now);
        if result.Failure? {
          return categoryIds, Some(result.error);
        }
        tables := result.value.0;
        categoryIds := categoryIds[cs[i].name := result.value.1];
        i := i + 1;
      }
      assert cs[i..] == [];
      err := None;
    }

    /** The product loop of `seedInitialData`; the first failing INSERT ends it. */
    method InsertSeedProducts(ps: seq<SeedProduct>, categoryIds: map<string, int>, now: string) returns (err: Option<DbError>)
      requires open && Valid()
      modifies this
      ensures open && Valid()
      ensures var s := SeedProductsFrom(old(tables), ps, categoryIds, now); tables == s.tables && err == s.error
    {
      ghost var t0 := tables;
      var i := 0;
      while i < |ps|
        invariant 0 <= i <= |ps|
        invariant open && Schema.Valid(tables)
        invariant SeedProductsFrom(t0, ps, categoryIds, now) == SeedProductsFrom(tables, ps[i..], categoryIds, now)
      {
        assert ps[i..][1..] == ps[i + 1..];
        var result := InsertProduct(tables, SeedInsert(ps[i], categoryIds), now);
        if result.Failure? {
          return Some(result.error);
        }
        tables := result.value.0;
        i := i + 1;
      }
      assert ps[i..] == [];
      err := None;
    }
  }
}
