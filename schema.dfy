/** The catalog database of `src/helpers/database/db.ts`: the two tables created by
    `createTables`, their constraints, and what SQLite does for the INSERT, UPDATE and
    DELETE statements the catalog code runs. Each table is a map from row id to row. */
module Schema {
  import opened Wrappers
  import Text
  import Collections

  datatype CategoryRow = CategoryRow(
    id: int,
    name: string,
    description: Option<string>,
    createdAt: string,
    updatedAt: string)

  datatype ProductRow = ProductRow(
    id: int,
    name: string,
    price: real,
    categoryId: Option<int>,
    sku: string,
    image: Option<string>,
    description: Option<string>,
    stock: int,
    createdAt: string,
    updatedAt: string)

  /** A product row read with `LEFT JOIN categories`, carrying its category's name. */
  datatype ProductWithCategory = ProductWithCategory(row: ProductRow, category: Option<string>)

  /** The database file: both tables and the AUTOINCREMENT counters SQLite keeps in
      `sqlite_sequence` (the largest id ever handed out in each table). */
  datatype Tables = Tables(
    categories: map<int, CategoryRow>,
    products: map<int, ProductRow>,
    lastCategoryId: int,
    lastProductId: int)

  /** The column values of a product INSERT. */
  datatype NewProduct = NewProduct(
    name: string,
    price: real,
    categoryId: Option<int>,
    sku: string,
    image: Option<string>,
    description: Option<string>,
    stock: int)

  /** One `column = ?` entry of an UPDATE on products. */
  datatype ProductAssignment =
    | SetName(name: string)
    | SetPrice(price: real)
    | SetCategoryId(categoryId: Option<int>)
    | SetSku(sku: string)
    | SetImage(image: string)
    | SetDescription(description: string)
    | SetStock(stock: int)

  /** One `column = ?` entry of an UPDATE on categories. */
  datatype CategoryAssignment =
    | SetCategoryName(name: string)
    | SetCategoryDescription(description: string)

  /** The errors the catalog code throws or lets SQLite throw. */
  datatype DbError =
    | OpenFailed(reason: string)
    | NotInitialized
    | ProductNotFound
    | CategoryNotFound
    | CategoryInUse(count: nat)
    | DuplicateCategoryName
    | DuplicateSku
    | ForeignKeyViolation

  /** The `error.message` text that reaches the renderer through the IPC wrapper. */
  function Message(e: DbError): string {
    match e
    case OpenFailed(reason) => reason
    case NotInitialized => "Database not initialized. Call initializeDatabase() first."
    case ProductNotFound => "Product not found"
    case CategoryNotFound => "Category not found"
    case CategoryInUse(n) => "Cannot delete category: " + Text.DecimalString(n) + " product(s) are using it"
    case DuplicateCategoryName => "UNIQUE constraint failed: categories.name"
    case DuplicateSku => "UNIQUE constraint failed: products.sku"
    case ForeignKeyViolation => "FOREIGN KEY constraint failed"
  }

  /** The refusal of a category delete names the number of products using it. */
  lemma InUseMessageReportsCount(n: nat)
    ensures Text.Contains(Message(CategoryInUse(n)), Text.DecimalString(n))
  {
    Text.ContainsInMiddle("Cannot delete category: ", Text.DecimalString(n), " product(s) are using it");
  }

  // ---------------------------------------------------------------------------
  // The schema's constraints
  // ---------------------------------------------------------------------------

  /** Every row is stored under its own id, and ids never exceed the AUTOINCREMENT counter. */
  predicate IdsInRange(t: Tables) {
    && 0 <= t.lastCategoryId && 0 <= t.lastProductId
    && (forall k :: k in t.categories ==> t.categories[k].id == k && 1 <= k <= t.lastCategoryId)
    && (forall k :: k in t.products ==> t.products[k].id == k && 1 <= k <= t.lastProductId)
  }

  /** `name TEXT NOT NULL UNIQUE` on categories. */
  predicate UniqueCategoryNames(t: Tables) {
    forall k1, k2 :: k1 in t.categories && k2 in t.categories && t.categories[k1].name == t.categories[k2].name ==> k1 == k2
  }

  /** `sku TEXT NOT NULL UNIQUE` on products. */
  predicate UniqueSkus(t: Tables) {
    forall k1, k2 :: k1 in t.products && k2 in t.products && t.products[k1].sku == t.products[k2].sku ==> k1 == k2
  }

  /** `FOREIGN KEY (category_id) REFERENCES categories(id)`, enforced because the
      connection turns `foreign_keys` on. */
  predicate ForeignKeysHold(t: Tables) {
    forall k :: k in t.products && t.products[k].categoryId.Some? ==> t.products[k].categoryId.value in t.categories
  }

  predicate Valid(t: Tables) {
    IdsInRange(t) && UniqueCategoryNames(t) && UniqueSkus(t) && ForeignKeysHold(t)
  }

  /** Some category other than `except` already has this name. */
  predicate NameTaken(t: Tables, name: string, except: int) {
    exists k :: k in t.categories && k != except && t.categories[k].name == name
  }

  /** Some product other than `except` already has this SKU. */
  predicate SkuTaken(t: Tables, sku: string, except: int) {
    exists k :: k in t.products && k != except && t.products[k].sku == sku
  }

  /** A `category_id` value the foreign key accepts: NULL or a live category. */
  predicate CategoryRefOk(t: Tables, c: Option<int>) {
    c.None? || c.value in t.categories
  }

  // ---------------------------------------------------------------------------
  // Statements
  // ---------------------------------------------------------------------------

  /** `INSERT INTO categories (name, description) VALUES (?, ?)`; yields the new tables and
      `lastInsertRowid`. Timestamps take their `CURRENT_TIMESTAMP` default, `now`. */
  function InsertCategory(t: Tables, name: string, description: Option<string>, now: string): (r: Result<(Tables, int), DbError>)
    requires IdsInRange(t)
    ensures r.Success? <==> !NameTaken(t, name, t.lastCategoryId + 1)
    ensures r.Failure? ==> r.error == DuplicateCategoryName
    ensures r.Success? ==>
      var (t', id) := r.value;
      && IdsInRange(t')
      && (Valid(t) ==> Valid(t'))
      && id == t.lastCategoryId + 1 && id !in t.categories
      && t'.categories == t.categories[id := CategoryRow(id, name, description, now, now)]
      && t'.products == t.products && t'.lastProductId == t.lastProductId
      && t'.lastCategoryId == id
  {
    var id := t.lastCategoryId + 1;
    if NameTaken(t, name, id) then Failure(DuplicateCategoryName)
    else
      var t' := t.(categories := t.categories[id := CategoryRow(id, name, description, now, now)], lastCategoryId := id);
      assert IdsInRange(t') by {
        forall k | k in t'.categories
          ensures t'.categories[k].id == k && 1 <= k <= t'.lastCategoryId
        {
          if k != id {
            assert t'.categories[k] == t.categories[k];
          }
        }
      }
      assert UniqueCategoryNames(t) ==> UniqueCategoryNames(t') by {
        if UniqueCategoryNames(t) {
          forall k1, k2 | k1 in t'.categories && k2 in t'.categories && t'.categories[k1].name == t'.categories[k2].name
            ensures k1 == k2
          {
            if k1 != id && k2 != id {
              assert t'.categories[k1] == t.categories[k1] && t'.categories[k2] == t.categories[k2];
            }
          }
        }
      }
      Success((t', id))
  }

  /** `INSERT INTO products (...) VALUES (...)`. A duplicate SKU fails on the UNIQUE
      constraint; a `category_id` naming no category fails on the foreign key. */
  function InsertProduct(t: Tables, p: NewProduct, now: string): (r: Result<(Tables, int), DbError>)
    requires IdsInRange(t)
    ensures r.Success? <==> !SkuTaken(t, p.sku, t.lastProductId + 1) && CategoryRefOk(t, p.categoryId)
    ensures r.Failure? ==> r.error == (if SkuTaken(t, p.sku, t.lastProductId + 1) then DuplicateSku else ForeignKeyViolation)
    ensures r.Success? ==>
      var (t', id) := r.value;
      && IdsInRange(t')
      && (Valid(t) ==> Valid(t'))
      && id == t.lastProductId + 1 && id !in t.products
      && t'.products == t.products[id := ProductRow(id, p.name, p.price, p.categoryId, p.sku, p.image, p.description, p.stock, now, now)]
      && t'.categories == t.categories && t'.lastCategoryId == t.lastCategoryId
      && t'.lastProductId == id
  {
    var id := t.lastProductId + 1;
    if SkuTaken(t, p.sku, id) then Failure(DuplicateSku)
    else if !CategoryRefOk(t, p.categoryId) then Failure(ForeignKeyViolation)
    else
      var row := ProductRow(id, p.name, p.price, p.categoryId, p.sku, p.image, p.description, p.stock, now, now);
      var t' := t.(products := t.products[id := row], lastProductId := id);
      assert IdsInRange(t') by {
        forall k | k in t'.products
          ensures t'.products[k].id == k && 1 <= k <= t'.lastProductId
        {
          if k != id {
            assert t'.products[k] == t.products[k];
          }
        }
      }
      assert UniqueSkus(t) ==> UniqueSkus(t') by {
        if UniqueSkus(t) {
          forall k1, k2 | k1 in t'.products && k2 in t'.products && t'.products[k1].sku == t'.products[k2].sku
            ensures k1 == k2
          {
            if k1 != id && k2 != id {
              assert t'.products[k1] == t.products[k1] && t'.products[k2] == t.products[k2];
            }
          }
        }
      }
      Success((t', id))
  }

  /** One `column = ?` assignment performed on a product row. */
  function AssignProduct(row: ProductRow, a: ProductAssignment): (r: ProductRow)
    ensures r.id == row.id && r.createdAt == row.createdAt && r.updatedAt == row.updatedAt
  {
    match a
    case SetName(v) => row.(name := v)
    case SetPrice(v) => row.(price := v)
    case SetCategoryId(v) => row.(categoryId := v)
    case SetSku(v) => row.(sku := v)
    case SetImage(v) => row.(image := Some(v))
    case SetDescription(v) => row.(description := Some(v))
    case SetStock(v) => row.(stock := v)
  }

  /** The row that results from performing `updates` on `row` in order. */
  function ApplyProductAssignments(row: ProductRow, updates: seq<ProductAssignment>): ProductRow
    decreases |updates|
  {
    if updates == [] then row else ApplyProductAssignments(AssignProduct(row, updates[0]), updates[1..])
  }

  /** One `column = ?` assignment performed on a category row. */
  function AssignCategory(row: CategoryRow, a: CategoryAssignment): (r: CategoryRow)
    ensures r.id == row.id && r.createdAt == row.createdAt && r.updatedAt == row.updatedAt
  {
    match a
    case SetCategoryName(v) => row.(name := v)
    case SetCategoryDescription(v) => row.(description := Some(v))
  }

  function ApplyCategoryAssignments(row: CategoryRow, updates: seq<CategoryAssignment>): CategoryRow
    decreases |updates|
  {
    if updates == [] then row else ApplyCategoryAssignments(AssignCategory(row, updates[0]), updates[1..])
  }

  /** `UPDATE products SET <updates>, updated_at = CURRENT_TIMESTAMP WHERE id = ?`.
      No row matches an absent id, and the tables stay as they are. */
  function UpdateProduct(t: Tables, id: int, updates: seq<ProductAssignment>, now: string): (r: Result<Tables, DbError>)
    requires Valid(t)
    ensures id !in t.products ==> r == Success(t)
    ensures id in t.products ==>
      var row := ApplyProductAssignments(t.products[id], updates).(updatedAt := now);
      && (r.Success? <==> !SkuTaken(t, row.sku, id) && CategoryRefOk(t, row.categoryId))
      && (r.Failure? ==> r.error == if SkuTaken(t, row.sku, id) then DuplicateSku else ForeignKeyViolation)
      && (r.Success? ==> r.value == t.(products := t.products[id := row]))
    ensures r.Success? ==> Valid(r.value)
  {
    if id !in t.products then Success(t)
    else
      var row := ApplyProductAssignments(t.products[id], updates).(updatedAt := now);
      if SkuTaken(t, row.sku, id) then Failure(DuplicateSku)
      else if !CategoryRefOk(t, row.categoryId) then Failure(ForeignKeyViolation)
      else
        var t' := t.(products := t.products[id := row]);
        assert row.id == id by {
          ApplyKeepsProductId(t.products[id], updates);
        }
        assert UniqueSkus(t') by {
          forall k1, k2 | k1 in t'.products && k2 in t'.products && t'.products[k1].sku == t'.products[k2].sku
            ensures k1 == k2
          {
            if k1 != id && k2 != id {
              assert t'.products[k1] == t.products[k1] && t'.products[k2] == t.products[k2];
            }
          }
        }
        Success(t')
  }

  /** `UPDATE categories SET <updates>, updated_at = CURRENT_TIMESTAMP WHERE id = ?`. */
  function UpdateCategory(t: Tables, id: int, updates: seq<CategoryAssignment>, now: string): (r: Result<Tables, DbError>)
    requires Valid(t)
    ensures id !in t.categories ==> r == Success(t)
    ensures id in t.categories ==>
      var row := ApplyCategoryAssignments(t.categories[id], updates).(updatedAt := now);
      && (r.Success? <==> !NameTaken(t, row.name, id))
      && (r.Failure? ==> r.error == DuplicateCategoryName)
      && (r.Success? ==> r.value == t.(categories := t.categories[id := row]))
    ensures r.Success? ==> Valid(r.value)
  {
    if id !in t.categories then Success(t)
    else
      var row := ApplyCategoryAssignments(t.categories[id], updates).(updatedAt := now);
      if NameTaken(t, row.name, id) then Failure(DuplicateCategoryName)
      else
        var t' := t.(categories := t.categories[id := row]);
        assert row.id == id by {
          ApplyKeepsCategoryId(t.categories[id], updates);
        }
        assert UniqueCategoryNames(t') by {
          forall k1, k2 | k1 in t'.categories && k2 in t'.categories && t'.categories[k1].name == t'.categories[k2].name
            ensures k1 == k2
          {
            if k1 != id && k2 != id {
              assert t'.categories[k1] == t.categories[k1] && t'.categories[k2] == t.categories[k2];
            }
          }
        }
        Success(t')
  }

  lemma {:induction false} ApplyKeepsProductId(row: ProductRow, updates: seq<ProductAssignment>)
    ensures ApplyProductAssignments(row, updates).id == row.id
    ensures ApplyProductAssignments(row, updates).createdAt == row.createdAt
    decreases |updates|
  {
    if updates != [] {
      ApplyKeepsProductId(AssignProduct(row, updates[0]), updates[1..]);
    }
  }

  lemma {:induction false} ApplyKeepsCategoryId(row: CategoryRow, updates: seq<CategoryAssignment>)
    ensures ApplyCategoryAssignments(row, updates).id == row.id
    ensures ApplyCategoryAssignments(row, updates).createdAt == row.createdAt
    decreases |updates|
  {
    if updates != [] {
      ApplyKeepsCategoryId(AssignCategory(row, updates[0]), updates[1..]);
    }
  }

  /** `DELETE FROM products WHERE id = ?`; yields the new tables and `changes`. */
  function DeleteProduct(t: Tables, id: int): (r: (Tables, nat))
    requires Valid(t)
    ensures Valid(r.0)
    ensures r.1 == if id in t.products then 1 else 0
    ensures r.0 == t.(products := t.products - {id})
  {
    (t.(products := t.products - {id}), if id in t.products then 1 else 0)
  }

  /** The products whose `category_id` is `id`. */
  function ProductsUsing(t: Tables, id: int): set<int> {
    set k | k in t.products && t.products[k].categoryId == Some(id)
  }

  /** `DELETE FROM categories WHERE id = ?`, with the foreign key's `ON DELETE SET NULL`:
      products that referenced the deleted category lose the reference and are kept. */
  function DeleteCategory(t: Tables, id: int): (r: (Tables, nat))
    requires Valid(t)
    ensures Valid(r.0)
    ensures r.1 == if id in t.categories then 1 else 0
    ensures r.0.categories == t.categories - {id}
    ensures r.0.products.Keys == t.products.Keys
    ensures forall k :: k in t.products ==>
      r.0.products[k] == if k in ProductsUsing(t, id) then t.products[k].(categoryId := None) else t.products[k]
    ensures r.0.lastCategoryId == t.lastCategoryId && r.0.lastProductId == t.lastProductId
  {
    var products := map k | k in t.products ::
      if t.products[k].categoryId == Some(id) then t.products[k].(categoryId := None) else t.products[k];
    (t.(categories := t.categories - {id}, products := products), if id in t.categories then 1 else 0)
  }

  /** With no product using the category, the delete leaves the products table alone. */
  lemma DeleteUnusedCategoryKeepsProducts(t: Tables, id: int)
    requires Valid(t) && ProductsUsing(t, id) == {}
    ensures DeleteCategory(t, id).0.products == t.products
  {
    var t' := DeleteCategory(t, id).0;
    forall k | k in t.products
      ensures t'.products[k] == t.products[k]
    {
      assert k !in ProductsUsing(t, id);
    }
  }

  // ---------------------------------------------------------------------------
  // Reading a table in row-id order
  // ---------------------------------------------------------------------------

  /** The rows of `m` with ids 1..n, in increasing id order (a table scan). */
  function RowsUpTo<R>(m: map<int, R>, n: int): (r: seq<R>)
    decreases n
  {
    if n <= 0 then [] else RowsUpTo(m, n - 1) + (if n in m then [m[n]] else [])
  }

  lemma {:induction false} RowsUpToMembers<R>(m: map<int, R>, n: int)
    ensures forall k :: 1 <= k <= n && k in m ==> m[k] in RowsUpTo(m, n)
    ensures forall x :: x in RowsUpTo(m, n) ==> exists k :: 1 <= k <= n && k in m && m[k] == x
    decreases n
  {
    if n > 0 {
      RowsUpToMembers(m, n - 1);
      var last := if n in m then [m[n]] else [];
      assert RowsUpTo(m, n) == RowsUpTo(m, n - 1) + last;
      forall x | x in RowsUpTo(m, n)
        ensures exists k :: 1 <= k <= n && k in m && m[k] == x
      {
        if x !in RowsUpTo(m, n - 1) {
          assert x in last;
          assert m[n] == x;
        }
      }
    }
  }

  /** A scan lists no row twice when no two ids hold the same row. */
  lemma {:induction false} RowsUpToNoDuplicates<R>(m: map<int, R>, n: int)
    requires forall k1, k2 :: k1 in m && k2 in m && m[k1] == m[k2] ==> k1 == k2
    ensures Collections.NoDuplicates(RowsUpTo(m, n))
    decreases n
  {
    if n > 0 {
      RowsUpToNoDuplicates(m, n - 1);
      if n in m {
        var a := RowsUpTo(m, n - 1);
        RowsUpToMembers(m, n - 1);
        assert m[n] !in a;
        var r := a + [m[n]];
        forall i, j | 0 <= i < j < |r|
          ensures r[i] != r[j]
        {
          if j == |a| {
            assert r[i] in a;
          }
        }
      }
    }
  }

  /** A full scan of a table whose ids stay within `n` yields exactly its rows. */
  lemma ScanHasEveryRow<R>(m: map<int, R>, n: int)
    requires forall k :: k in m ==> 1 <= k <= n
    ensures forall k :: k in m ==> m[k] in RowsUpTo(m, n)
    ensures forall x :: x in RowsUpTo(m, n) ==> exists k :: k in m && m[k] == x
  {
    RowsUpToMembers(m, n);
  }
}
