/** The catalog operations of `src/helpers/database/operations.ts`. The queries are
    functions over the tables; the operations that write are methods on the open
    connection. Every operation first asks for the connection, so each fails with
    `NotInitialized` while the database is closed. */
module Operations {
  import opened Wrappers
  import opened Schema
  import opened Db
  import opened Collections
  import opened Text

  // ---------------------------------------------------------------------------
  // Reading products
  // ---------------------------------------------------------------------------

  /** `LEFT JOIN categories c ON p.category_id = c.id`, selecting `c.name as category`:
      the name of the referenced category, or null when there is none. */
  function JoinCategory(t: Tables, row: ProductRow): (r: ProductWithCategory)
    ensures r.row == row
    ensures r.category.Some? <==> row.categoryId.Some? && row.categoryId.value in t.categories
    ensures r.category.Some? ==> r.category.value == t.categories[row.categoryId.value].name
  {
    var c := if row.categoryId.Some? && row.categoryId.value in t.categories
      then Some(t.categories[row.categoryId.value].name) else None;
    ProductWithCategory(row, c)
  }

  /** The sort key of `ORDER BY p.name ASC`. */
  function ProductName(p: ProductWithCategory): string {
    p.row.name
  }

  /** `x` is the joined form of some product in the table. */
  predicate Listed(t: Tables, x: ProductWithCategory) {
    exists k :: k in t.products && JoinCategory(t, t.products[k]) == x
  }

  /** Every product, joined with its category, in table-scan order. */
  function JoinAll(t: Tables): seq<ProductWithCategory> {
    var rows := RowsUpTo(t.products, t.lastProductId);
    seq(|rows|, i requires 0 <= i < |rows| => JoinCategory(t, rows[i]))
  }

  lemma JoinAllMembers(t: Tables)
    requires IdsInRange(t)
    ensures forall x :: x in JoinAll(t) <==> Listed(t, x)
  {
    var rows := RowsUpTo(t.products, t.lastProductId);
    var all := JoinAll(t);
    ScanHasEveryRow(t.products, t.lastProductId);
    forall x | x in all
      ensures Listed(t, x)
    {
      var i :| 0 <= i < |all| && all[i] == x;
      assert rows[i] in rows;
      var k :| k in t.products && t.products[k] == rows[i];
      assert JoinCategory(t, t.products[k]) == x;
    }
    forall x | Listed(t, x)
      ensures x in all
    {
      var k :| k in t.products && JoinCategory(t, t.products[k]) == x;
      assert t.products[k] in rows;
      var i :| 0 <= i < |rows| && rows[i] == t.products[k];
      assert all[i] == x;
    }
  }

  /** A query result lists each product at most once. */
  predicate EachProductOnce(r: seq<ProductWithCategory>) {
    forall i, j :: 0 <= i < j < |r| ==> r[i].row.id != r[j].row.id
  }

  /** The joined scan repeats no row, since every product sits under its own id. */
  lemma JoinAllNoDuplicates(t: Tables)
    requires IdsInRange(t)
    ensures NoDuplicates(JoinAll(t))
  {
    var rows := RowsUpTo(t.products, t.lastProductId);
    RowsUpToNoDuplicates(t.products, t.lastProductId);
    var all := JoinAll(t);
    forall i, j | 0 <= i < j < |all|
      ensures all[i] != all[j]
    {
      assert all[i].row == rows[i] && all[j].row == rows[j];
    }
  }

  /** Distinct joined products of the table have distinct ids. */
  lemma ListedOnce(t: Tables, r: seq<ProductWithCategory>)
    requires IdsInRange(t) && NoDuplicates(r)
    requires forall x :: x in r ==> Listed(t, x)
    ensures EachProductOnce(r)
  {
    forall i, j | 0 <= i < j < |r|
      ensures r[i].row.id != r[j].row.id
    {
      assert r[i] in r && r[j] in r;
      assert Listed(t, r[i]) && Listed(t, r[j]);
      var k1 :| k1 in t.products && JoinCategory(t, t.products[k1]) == r[i];
      var k2 :| k2 in t.products && JoinCategory(t, t.products[k2]) == r[j];
      assert r[i].row.id == k1 && r[j].row.id == k2;
    }
  }

  /** `SELECT p.*, c.name as category FROM products p LEFT JOIN categories c ...
      WHERE <keep> ORDER BY p.name ASC`: the joined products satisfying `keep`, sorted by
      name. SQL leaves the order of equal names open; the model keeps scan order there. */
  function ProductQuery(t: Tables, keep: ProductWithCategory -> bool): (r: seq<ProductWithCategory>)
    requires IdsInRange(t)
    ensures SortedBy(r, ProductName)
    ensures forall x :: x in r <==> Listed(t, x) && keep(x)
    ensures EachProductOnce(r)
  {
    var s := Where(JoinAll(t), keep);
    JoinAllMembers(t);
    var r := SortBy(s, ProductName);
    assert forall x :: x in r <==> x in multiset(r);
    assert forall x :: x in s <==> x in multiset(s);
    JoinAllNoDuplicates(t);
    WhereWithin(JoinAll(t), keep);
    NoDuplicatesWithin(s, JoinAll(t));
    NoDuplicatesWithin(r, s);
    ListedOnce(t, r);
    r
  }

  /** `getAllProducts`. */
  function AllProducts(t: Tables): (r: seq<ProductWithCategory>)
    requires IdsInRange(t)
    ensures SortedBy(r, ProductName)
    ensures forall x :: x in r <==> Listed(t, x)
    ensures EachProductOnce(r)
  {
    ProductQuery(t, _ => true)
  }

  /** `getProductById`: the joined row, or null. */
  function ProductById(t: Tables, id: int): (r: Option<ProductWithCategory>)
    ensures r.Some? <==> id in t.products
    ensures r.Some? ==> r.value.row == t.products[id] && Listed(t, r.value)
  {
    if id in t.products then Some(JoinCategory(t, t.products[id])) else None
  }

  /** `s LIKE '%q%'`: SQLite's LIKE ignores the case of ASCII letters only. */
  predicate LikeContains(s: string, q: string) {
    Contains(LowerStr(s), LowerStr(q))
  }

  /** The WHERE clause of `searchProducts`. A null description makes its LIKE null, which
      the OR treats as false. */
  predicate SearchMatch(query: string, p: ProductWithCategory) {
    || LikeContains(p.row.name, query)
    || LikeContains(p.row.sku, query)
    || (p.row.description.Some? && LikeContains(p.row.description.value, query))
  }

  /** `searchProducts`. */
  function SearchProducts(t: Tables, query: string): (r: seq<ProductWithCategory>)
    requires IdsInRange(t)
    ensures SortedBy(r, ProductName)
    ensures forall x :: x in r <==> Listed(t, x) && SearchMatch(query, x)
    ensures EachProductOnce(r)
  {
    ProductQuery(t, p => SearchMatch(query, p))
  }

  /** `getProductsByCategory`. */
  function ProductsByCategory(t: Tables, categoryId: int): (r: seq<ProductWithCategory>)
    requires IdsInRange(t)
    ensures SortedBy(r, ProductName)
    ensures forall x :: x in r <==> Listed(t, x) && x.row.categoryId == Some(categoryId)
    ensures EachProductOnce(r)
  {
    ProductQuery(t, (p: ProductWithCategory) => p.row.categoryId == Some(categoryId))
  }

  /** Every string contains the empty one. */
  lemma ContainsEmpty(s: string)
    ensures Contains(s, "")
  {
    assert s[0..0] == "";
    ContainsAt(s, "", 0);
  }

  /** An empty search term (`%%`) lists every product. */
  lemma EmptySearchListsAll(t: Tables)
    requires IdsInRange(t)
    ensures forall x :: x in SearchProducts(t, "") <==> x in AllProducts(t)
  {
    forall x: ProductWithCategory
      ensures SearchMatch("", x)
    {
      ContainsEmpty(LowerStr(x.row.name));
    }
  }

  /** A product whose description alone contains the term is found. */
  lemma SearchFindsByDescription(t: Tables, k: int, query: string)
    requires IdsInRange(t) && k in t.products
    requires t.products[k].description.Some?
    requires LikeContains(t.products[k].description.value, query)
    ensures JoinCategory(t, t.products[k]) in SearchProducts(t, query)
  {
  }

  // ---------------------------------------------------------------------------
  // Reading categories
  // ---------------------------------------------------------------------------

  /** The sort key of `ORDER BY name ASC` on categories. */
  function CategoryName(c: CategoryRow): string {
    c.name
  }

  /** A result lists each category at most once. */
  predicate EachCategoryOnce(r: seq<CategoryRow>) {
    forall i, j :: 0 <= i < j < |r| ==> r[i].id != r[j].id
  }

  /** Distinct rows of the categories table have distinct ids. */
  lemma CategoriesOnce(t: Tables, r: seq<CategoryRow>)
    requires IdsInRange(t) && NoDuplicates(r)
    requires forall c :: c in r ==> exists k :: k in t.categories && t.categories[k] == c
    ensures EachCategoryOnce(r)
  {
    forall i, j | 0 <= i < j < |r|
      ensures r[i].id != r[j].id
    {
      assert r[i] in r && r[j] in r;
      var k1 :| k1 in t.categories && t.categories[k1] == r[i];
      var k2 :| k2 in t.categories && t.categories[k2] == r[j];
    }
  }

  /** `getAllCategories`. */
  function AllCategories(t: Tables): (r: seq<CategoryRow>)
    requires IdsInRange(t)
    ensures SortedBy(r, CategoryName)
    ensures forall c :: c in r <==> exists k :: k in t.categories && t.categories[k] == c
    ensures EachCategoryOnce(r)
  {
    var s := RowsUpTo(t.categories, t.lastCategoryId);
    ScanHasEveryRow(t.categories, t.lastCategoryId);
    var r := SortBy(s, CategoryName);
    assert forall x :: x in r <==> x in multiset(r);
    assert forall x :: x in s <==> x in multiset(s);
    RowsUpToNoDuplicates(t.categories, t.lastCategoryId);
    NoDuplicatesWithin(r, s);
    CategoriesOnce(t, r);
    r
  }

  /** `getCategoryById`: the row, or null. */
  function CategoryById(t: Tables, id: int): (r: Option<CategoryRow>)
    ensures r.Some? <==> id in t.categories
    ensures r.Some? ==> r.value == t.categories[id]
  {
    if id in t.categories then Some(t.categories[id]) else None
  }

  // ---------------------------------------------------------------------------
  // Queries through the connection
  // ---------------------------------------------------------------------------

  function GetAllProducts(db: Database): (r: Result<seq<ProductWithCategory>, DbError>)
    requires db.Valid()
    reads db
    ensures r.Success? <==> db.open
    ensures r.Failure? ==> r.error == NotInitialized
    ensures r.Success? ==> SortedBy(r.value, ProductName) && forall x :: x in r.value <==> Listed(db.tables, x)
    ensures r.Success? ==> r.value == AllProducts(db.tables)
  {
    var t :- db.GetDatabase();
    Success(AllProducts(t))
  }

  function GetProductById(db: Database, id: int): (r: Result<Option<ProductWithCategory>, DbError>)
    reads db
    ensures r.Success? <==> db.open
    ensures r.Failure? ==> r.error == NotInitialized
    ensures r.Success? ==> (r.value.Some? <==> id in db.tables.products)
    ensures r.Success? ==> r.value == ProductById(db.tables, id)
  {
    var t :- db.GetDatabase();
    Success(ProductById(t, id))
  }

  function GetSearchProducts(db: Database, query: string): (r: Result<seq<ProductWithCategory>, DbError>)
    requires db.Valid()
    reads db
    ensures r.Success? <==> db.open
    ensures r.Failure? ==> r.error == NotInitialized
    ensures r.Success? ==> forall x :: x in r.value <==> Listed(db.tables, x) && SearchMatch(query, x)
    ensures r.Success? ==> r.value == SearchProducts(db.tables, query)
  {
    var t :- db.GetDatabase();
    Success(SearchProducts(t, query))
  }

  function GetProductsByCategory(db: Database, categoryId: int): (r: Result<seq<ProductWithCategory>, DbError>)
    requires db.Valid()
    reads db
    ensures r.Success? <==> db.open
    ensures r.Failure? ==> r.error == NotInitialized
    ensures r.Success? ==> forall x :: x in r.value <==> Listed(db.tables, x) && x.row.categoryId == Some(categoryId)
    ensures r.Success? ==> r.value == ProductsByCategory(db.tables, categoryId)
  {
    var t :- db.GetDatabase();
    Success(ProductsByCategory(t, categoryId))
  }

  function GetAllCategories(db: Database): (r: Result<seq<CategoryRow>, DbError>)
    requires db.Valid()
    reads db
    ensures r.Success? <==> db.open
    ensures r.Failure? ==> r.error == NotInitialized
    ensures r.Success? ==> SortedBy(r.value, CategoryName)
    ensures r.Success? ==> r.value == AllCategories(db.tables)
  {
    var t :- db.GetDatabase();
    Success(AllCategories(t))
  }

  function GetCategoryById(db: Database, id: int): (r: Result<Option<CategoryRow>, DbError>)
    reads db
    ensures r.Success? <==> db.open
    ensures r.Failure? ==> r.error == NotInitialized
    ensures r.Success? ==> (r.value.Some? <==> id in db.tables.categories)
    ensures r.Success? ==> r.value == CategoryById(db.tables, id)
  {
    var t :- db.GetDatabase();
    Success(CategoryById(t, id))
  }

  // ---------------------------------------------------------------------------
  // Products
  // ---------------------------------------------------------------------------

  /** `CreateProductInput`: `image`, `description` and `stock` may be left out. */
  datatype CreateProductInput = CreateProductInput(
    name: string,
    price: real,
    categoryId: Option<int>,
    sku: string,
    image: Option<string>,
    description: Option<string>,
    stock: Option<int>)

  /** JavaScript's `s || null` on an optional string: absent and empty both become null. */
  function OrNull(s: Option<string>): (r: Option<string>)
    ensures r.Some? <==> s.Some? && s.value != ""
    ensures r.Some? ==> r == s
  {
    if s.Some? && s.value != "" then s else None
  }

  /** The values `createProduct` binds: `image || null`, `description || null`,
      `stock || 0`. */
  function CreateValues(input: CreateProductInput): (v: NewProduct)
    ensures v.name == input.name && v.price == input.price && v.sku == input.sku
    ensures v.categoryId == input.categoryId
    ensures v.image == OrNull(input.image) && v.description == OrNull(input.description)
    ensures input.stock.Some? ==> v.stock == input.stock.value
    ensures input.stock.None? ==> v.stock == 0
  {
    NewProduct(input.name, input.price, input.categoryId, input.sku,
      OrNull(input.image), OrNull(input.description), input.stock.GetOr(0))
  }

  /** `UpdateProductInput`: a field left `undefined` is `None`. `categoryId` may be set
      to null, hence the nested option. */
  datatype ProductPatch = ProductPatch(
    name: Option<string>,
    price: Option<real>,
    categoryId: Option<Option<int>>,
    sku: Option<string>,
    image: Option<string>,
    description: Option<string>,
    stock: Option<int>)
  {
    predicate IsEmpty() {
      name.None? && price.None? && categoryId.None? && sku.None? && image.None? && description.None? && stock.None?
    }
  }

  /** The `updates` list `updateProduct` builds: one entry per supplied field, in the
      order the source tests them. */
  function ProductAssignments(p: ProductPatch): (r: seq<ProductAssignment>)
    ensures r == [] <==> p.IsEmpty()
  {
    FrontAssignments(p) + BackAssignments(p)
  }

  lemma ConcatAssoc<T>(a: seq<T>, b: seq<T>, c: seq<T>)
    ensures a + b + c == a + (b + c)
  {
  }

  /** The row a patch describes, field by field: a supplied field takes the new value, a
      missing one keeps the old. */
  function PatchedRow(row: ProductRow, p: ProductPatch): ProductRow {
    row.(
      name := p.name.GetOr(row.name),
      price := p.price.GetOr(row.price),
      categoryId := p.categoryId.GetOr(row.categoryId),
      sku := p.sku.GetOr(row.sku),
      image := if p.image.Some? then p.image else row.image,
      description := if p.description.Some? then p.description else row.description,
      stock := p.stock.GetOr(row.stock))
  }

  lemma {:induction false} ApplyAppend(row: ProductRow, a: seq<ProductAssignment>, b: seq<ProductAssignment>)
    ensures ApplyProductAssignments(row, a + b) == ApplyProductAssignments(ApplyProductAssignments(row, a), b)
    decreases |a|
  {
    if a != [] {
      assert (a + b)[0] == a[0] && (a + b)[1..] == a[1..] + b;
      ApplyAppend(AssignProduct(row, a[0]), a[1..], b);
    } else {
      assert a + b == b;
    }
  }

  lemma ApplyAtMostOne(row: ProductRow, u: seq<ProductAssignment>)
    requires |u| <= 1
    ensures ApplyProductAssignments(row, u) == if u == [] then row else AssignProduct(row, u[0])
  {
    if u != [] {
      assert u[1..] == [];
    }
  }

  /** The `name`, `price`, `category_id` and `sku` entries of `updates`. */
  function FrontAssignments(p: ProductPatch): seq<ProductAssignment> {
    (if p.name.Some? then [SetName(p.name.value)] else [])
    + (if p.price.Some? then [SetPrice(p.price.value)] else [])
    + (if p.categoryId.Some? then [SetCategoryId(p.categoryId.value)] else [])
    + (if p.sku.Some? then [SetSku(p.sku.value)] else [])
  }

  /** The `image`, `description` and `stock` entries of `updates`. */
  function BackAssignments(p: ProductPatch): seq<ProductAssignment> {
    (if p.image.Some? then [SetImage(p.image.value)] else [])
    + (if p.description.Some? then [SetDescription(p.description.value)] else [])
    + (if p.stock.Some? then [SetStock(p.stock.value)] else [])
  }

  lemma ApplyFront(row: ProductRow, p: ProductPatch)
    ensures ApplyProductAssignments(row, FrontAssignments(p)) ==
      row.(name := p.name.GetOr(row.name), price := p.price.GetOr(row.price),
           categoryId := p.categoryId.GetOr(row.categoryId), sku := p.sku.GetOr(row.sku))
  {
    var n := if p.name.Some? then [SetName(p.name.value)] else [];
    var pr := if p.price.Some? then [SetPrice(p.price.value)] else [];
    var c := if p.categoryId.Some? then [SetCategoryId(p.categoryId.value)] else [];
    var s := if p.sku.Some? then [SetSku(p.sku.value)] else [];
    ApplyAtMostOne(row, n);
    var r1 := ApplyProductAssignments(row, n);
    ApplyAtMostOne(r1, pr);
    var r2 := ApplyProductAssignments(r1, pr);
    ApplyAtMostOne(r2, c);
    var r3 := ApplyProductAssignments(r2, c);
    ApplyAtMostOne(r3, s);
    ApplyAppend(row, n, pr);
    ApplyAppend(row, n + pr, c);
    ApplyAppend(row, n + pr + c, s);
  }

  lemma ApplyBack(row: ProductRow, p: ProductPatch)
    ensures ApplyProductAssignments(row, BackAssignments(p)) ==
      row.(image := if p.image.Some? then p.image else row.image,
           description := if p.description.Some? then p.description else row.description,
           stock := p.stock.GetOr(row.stock))
  {
    var i := if p.image.Some? then [SetImage(p.image.value)] else [];
    var d := if p.description.Some? then [SetDescription(p.description.value)] else [];
    var st := if p.stock.Some? then [SetStock(p.stock.value)] else [];
    ApplyAtMostOne(row, i);
    var r1 := ApplyProductAssignments(row, i);
    ApplyAtMostOne(r1, d);
    var r2 := ApplyProductAssignments(r1, d);
    ApplyAtMostOne(r2, st);
    ApplyAppend(row, i, d);
    ApplyAppend(row, i + d, st);
  }

  /** Performing the assignments `updateProduct` builds changes exactly the supplied
      fields. */
  lemma PatchAssignmentsApply(row: ProductRow, p: ProductPatch)
    ensures ApplyProductAssignments(row, ProductAssignments(p)) == PatchedRow(row, p)
  {
    ApplyAppend(row, FrontAssignments(p), BackAssignments(p));
    ApplyFront(row, p);
    ApplyBack(ApplyProductAssignments(row, FrontAssignments(p)), p);
  }

  /** A successful non-empty product update stores the patched row stamped `now`. */
  lemma UpdateStoresPatchedRow(t: Tables, id: int, p: ProductPatch, now: string)
    requires Valid(t) && id in t.products
    requires Schema.UpdateProduct(t, id, ProductAssignments(p), now).Success?
    ensures Schema.UpdateProduct(t, id, ProductAssignments(p), now).value.products[id] == PatchedRow(t.products[id], p).(updatedAt := now)
  {
    PatchAssignmentsApply(t.products[id], p);
  }

  /** `createProduct`. The INSERT may fail on a constraint; otherwise the new row is read
      back by its id and returned joined with its category. */
  method CreateProduct(db: Database, input: CreateProductInput, now: string) returns (r: Result<ProductWithCategory, DbError>)
    requires db.Valid()
    modifies db
    ensures db.Valid() && db.open == old(db.open)
    ensures !old(db.open) ==> r == Failure(NotInitialized) && db.tables == old(db.tables)
    ensures old(db.open) ==>
      var ins := InsertProduct(old(db.tables), CreateValues(input), now);
      && (ins.Failure? ==> r == Failure(ins.error) && db.tables == old(db.tables))
      && (ins.Success? ==> db.tables == ins.value.0 && r == Success(JoinCategory(db.tables, db.tables.products[ins.value.1])))
  {
    var t :- db.GetDatabase();
    var ins := InsertProduct(t, CreateValues(input), now);
    if ins.Failure? {
      return Failure(ins.error);
    }
    db.tables := ins.value.0;
    var product := ProductById(db.tables, ins.value.1);
    r := Success(product.value);
  }

  /** The `updates` list of `updateProduct`, built by one `push` per supplied field. */
  method BuildProductUpdates(input: ProductPatch) returns (updates: seq<ProductAssignment>)
    ensures updates == ProductAssignments(input)
  {
    updates := [];
    if input.name.Some? {
      updates := updates + [SetName(input.name.value)];
    }
    ghost var front := if input.name.Some? then [SetName(input.name.value)] else [];
    assert updates == front;
    if input.price.Some? {
      updates := updates + [SetPrice(input.price.value)];
    }
    front := front + if input.price.Some? then [SetPrice(input.price.value)] else [];
    assert updates == front;
    if input.categoryId.Some? {
      updates := updates + [SetCategoryId(input.categoryId.value)];
    }
    front := front + if input.categoryId.Some? then [SetCategoryId(input.categoryId.value)] else [];
    assert updates == front;
    if input.sku.Some? {
      updates := updates + [SetSku(input.sku.value)];
    }
    front := front + if input.sku.Some? then [SetSku(input.sku.value)] else [];
    assert updates == front == FrontAssignments(input);
    if input.image.Some? {
      updates := updates + [SetImage(input.image.value)];
    }
    ghost var back := if input.image.Some? then [SetImage(input.image.value)] else [];
    assert updates == front + back;
    if input.description.Some? {
      updates := updates + [SetDescription(input.description.value)];
    }
    ghost var step := if input.description.Some? then [SetDescription(input.description.value)] else [];
    assert updates == front + back + step;
    ConcatAssoc(front, back, step);
    back := back + step;
    if input.stock.Some? {
      updates := updates + [SetStock(input.stock.value)];
    }
    step := if input.stock.Some? then [SetStock(input.stock.value)] else [];
    assert updates == front + back + step;
    ConcatAssoc(front, back, step);
    back := back + step;
  }

  /** `updateProduct`. An empty patch only reads the row back; otherwise the UPDATE sets
      the supplied fields and `updated_at`, and the row is read back. An id with no row
      fails with "Product not found" either way. */
  method UpdateProduct(db: Database, id: int, input: ProductPatch, now: string) returns (r: Result<ProductWithCategory, DbError>)
    requires db.Valid()
    modifies db
    ensures db.Valid() && db.open == old(db.open)
    ensures !old(db.open) ==> r == Failure(NotInitialized) && db.tables == old(db.tables)
    ensures old(db.open) && id !in old(db.tables).products ==>
      r == Failure(ProductNotFound) && db.tables == old(db.tables)
    ensures old(db.open) && id in old(db.tables).products && input.IsEmpty() ==>
      r == Success(JoinCategory(old(db.tables), old(db.tables).products[id])) && db.tables == old(db.tables)
    ensures old(db.open) && id in old(db.tables).products && !input.IsEmpty() ==>
      var u := Schema.UpdateProduct(old(db.tables), id, ProductAssignments(input), now);
      && (u.Failure? ==> r == Failure(u.error) && db.tables == old(db.tables))
      && (u.Success? ==> db.tables == u.value && r == Success(JoinCategory(db.tables, db.tables.products[id])))
  {
    var t :- db.GetDatabase();
    var updates := BuildProductUpdates(input);
    if |updates| == 0 {
      var product := ProductById(t, id);
      if product.None? {
        return Failure(ProductNotFound);
      }
      return Success(product.value);
    }
    var u := Schema.UpdateProduct(t, id, updates, now);
    if u.Failure? {
      return Failure(u.error);
    }
    db.tables := u.value;
    var product := ProductById(db.tables, id);
    if product.None? {
      return Failure(ProductNotFound);
    }
    return Success(product.value);
  }

  /** `deleteProduct`: removes the row with that id; "Product not found" when the DELETE
      changed nothing. */
  method DeleteProduct(db: Database, id: int) returns (r: Result<(), DbError>)
    requires db.Valid()
    modifies db
    ensures db.Valid() && db.open == old(db.open)
    ensures !old(db.open) ==> r == Failure(NotInitialized) && db.tables == old(db.tables)
    ensures old(db.open) ==>
      && db.tables == old(db.tables).(products := old(db.tables).products - {id})
      && (r.Success? <==> id in old(db.tables).products)
      && (r.Failure? ==> r.error == ProductNotFound)
  {
    var t :- db.GetDatabase();
    var (t', changes) := Schema.DeleteProduct(t, id);
    db.tables := t';
    if changes == 0 {
      return Failure(ProductNotFound);
    }
    return Success(());
  }

  // ---------------------------------------------------------------------------
  // Categories
  // ---------------------------------------------------------------------------

  /** `createCategory`: `description || null`, then the new row read back. */
  method CreateCategory(db: Database, name: string, description: Option<string>, now: string) returns (r: Result<CategoryRow, DbError>)
    requires db.Valid()
    modifies db
    ensures db.Valid() && db.open == old(db.open)
    ensures !old(db.open) ==> r == Failure(NotInitialized) && db.tables == old(db.tables)
    ensures old(db.open) ==>
      var ins := InsertCategory(old(db.tables), name, OrNull(description), now);
      && (ins.Failure? ==> r == Failure(ins.error) && db.tables == old(db.tables))
      && (ins.Success? ==> db.tables == ins.value.0 && r == Success(db.tables.categories[ins.value.1]))
  {
    var t :- db.GetDatabase();
    var ins := InsertCategory(t, name, OrNull(description), now);
    if ins.Failure? {
      return Failure(ins.error);
    }
    db.tables := ins.value.0;
    var category := CategoryById(db.tables, ins.value.1);
    r := Success(category.value);
  }

  /** `UpdateCategoryInput`. */
  datatype CategoryPatch = CategoryPatch(name: Option<string>, description: Option<string>) {
    predicate IsEmpty() {
      name.None? && description.None?
    }
  }

  function CategoryAssignments(p: CategoryPatch): (r: seq<CategoryAssignment>)
    ensures r == [] <==> p.IsEmpty()
  {
    (if p.name.Some? then [SetCategoryName(p.name.value)] else [])
    + (if p.description.Some? then [SetCategoryDescription(p.description.value)] else [])
  }

  /** Performing the assignments `updateCategory` builds changes exactly the supplied
      fields. */
  lemma CategoryAssignmentsApply(row: CategoryRow, p: CategoryPatch)
    ensures ApplyCategoryAssignments(row, CategoryAssignments(p)) ==
      row.(name := p.name.GetOr(row.name), description := if p.description.Some? then p.description else row.description)
  {
    var u := CategoryAssignments(p);
    if p.name.Some? && p.description.Some? {
      assert u == [SetCategoryName(p.name.value), SetCategoryDescription(p.description.value)];
      var r1 := AssignCategory(row, u[0]);
      assert u[1..][1..] == [];
      assert ApplyCategoryAssignments(r1, u[1..]) == AssignCategory(r1, u[1]);
    } else if u != [] {
      assert |u| == 1 && u[1..] == [];
    }
  }

  /** `updateCategory`: the same partial-patch rules as `updateProduct`. */
  method UpdateCategory(db: Database, id: int, input: CategoryPatch, now: string) returns (r: Result<CategoryRow, DbError>)
    requires db.Valid()
    modifies db
    ensures db.Valid() && db.open == old(db.open)
    ensures !old(db.open) ==> r == Failure(NotInitialized) && db.tables == old(db.tables)
    ensures old(db.open) && id !in old(db.tables).categories ==>
      r == Failure(CategoryNotFound) && db.tables == old(db.tables)
    ensures old(db.open) && id in old(db.tables).categories && input.IsEmpty() ==>
      r == Success(old(db.tables).categories[id]) && db.tables == old(db.tables)
    ensures old(db.open) && id in old(db.tables).categories && !input.IsEmpty() ==>
      var u := Schema.UpdateCategory(old(db.tables), id, CategoryAssignments(input), now);
      && (u.Failure? ==> r == Failure(u.error) && db.tables == old(db.tables))
      && (u.Success? ==> db.tables == u.value && r == Success(db.tables.categories[id]))
  {
    var t :- db.GetDatabase();
    var updates: seq<CategoryAssignment> := [];
    if input.name.Some? {
      updates := updates + [SetCategoryName(input.name.value)];
    }
    if input.description.Some? {
      updates := updates + [SetCategoryDescription(input.description.value)];
    }
    assert updates == CategoryAssignments(input);
    if |updates| == 0 {
      var category := CategoryById(t, id);
      if category.None? {
        return Failure(CategoryNotFound);
      }
      return Success(category.value);
    }
    var u := Schema.UpdateCategory(t, id, updates, now);
    if u.Failure? {
      return Failure(u.error);
    }
    db.tables := u.value;
    var category := CategoryById(db.tables, id);
    if category.None? {
      return Failure(CategoryNotFound);
    }
    return Success(category.value);
  }

  /** `deleteCategory`: refused, with the count, while products use the category; else
      the DELETE, and "Category not found" when it changed nothing. */
  method DeleteCategory(db: Database, id: int) returns (r: Result<(), DbError>)
    requires db.Valid()
    modifies db
    ensures db.Valid() && db.open == old(db.open)
    ensures !old(db.open) ==> r == Failure(NotInitialized) && db.tables == old(db.tables)
    ensures old(db.open) && |ProductsUsing(old(db.tables), id)| > 0 ==>
      r == Failure(CategoryInUse(|ProductsUsing(old(db.tables), id)|)) && db.tables == old(db.tables)
    ensures old(db.open) && |ProductsUsing(old(db.tables), id)| == 0 ==>
      && db.tables == old(db.tables).(categories := old(db.tables).categories - {id})
      && (r.Success? <==> id in old(db.tables).categories)
      && (r.Failure? ==> r.error == CategoryNotFound)
  {
    var t :- db.GetDatabase();
    var count := |ProductsUsing(t, id)|;
    if count > 0 {
      return Failure(CategoryInUse(count));
    }
    var (t', changes) := Schema.DeleteCategory(t, id);
    DeleteUnusedCategoryKeepsProducts(t, id);
    db.tables := t';
    if changes == 0 {
      return Failure(CategoryNotFound);
    }
    return Success(());
  }
}
