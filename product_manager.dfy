/** The product-management screen, `src/components/pos/product-manager.tsx`: the search
    filter over the loaded products and the state of the create/edit dialog. */
module ProductManager {
  import opened Wrappers
  import opened Collections
  import opened Text
  import opened Schema
  import Operations

  /** The filter's test: the lower-cased name or the lower-cased SKU contains the
      lower-cased query. The description is not searched. */
  predicate MatchesQuery(query: string, p: ProductWithCategory) {
    Contains(LowerStr(p.row.name), LowerStr(query)) || Contains(LowerStr(p.row.sku), LowerStr(query))
  }

  function Matches(query: string): ProductWithCategory -> bool {
    p => MatchesQuery(query, p)
  }

  /** `filteredProducts`: the loaded products that match, in their loaded order. */
  function FilteredProducts(products: seq<ProductWithCategory>, query: string): (r: seq<ProductWithCategory>)
    ensures IsSubsequence(r, products)
    ensures forall p :: p in r <==> p in products && MatchesQuery(query, p)
  {
    Where(products, Matches(query))
  }

  /** An empty search box shows every product, in order. */
  lemma EmptyQueryKeepsAll(products: seq<ProductWithCategory>)
    ensures FilteredProducts(products, "") == products
  {
    forall i | 0 <= i < |products|
      ensures Matches("")(products[i])
    {
      Operations.ContainsEmpty(LowerStr(products[i].row.name));
    }
    WhereKeepsAll(products, Matches(""));
  }

  /** For ASCII text and a query without the LIKE wildcards `%` and `_`, the screen's
      filter finds a subset of what the store's `searchProducts` matches, and the two
      agree except on products that match only through their description. Both sides
      share the ASCII lower-casing of `LowerStr` and plain containment, so outside that
      range (a non-ASCII letter, a wildcard in the query) the program's two searches can
      differ where this model has them agree. */
  lemma FilterAgreesWithStoreSearch(query: string, p: ProductWithCategory)
    ensures MatchesQuery(query, p) ==> Operations.SearchMatch(query, p)
    ensures p.row.description.None? ==> (Operations.SearchMatch(query, p) <==> MatchesQuery(query, p))
  {
  }

  /** A product found by the store's search through its description alone is not shown
      by the screen's filter. */
  lemma DescriptionOnlyMatchIsHidden()
    ensures var p := ProductWithCategory(
      ProductRow(1, "tea", 1.0, None, "T1", None, Some("green"), 0, "", ""), None);
      Operations.SearchMatch("green", p) && !MatchesQuery("green", p)
  {
    var p := ProductWithCategory(
      ProductRow(1, "tea", 1.0, None, "T1", None, Some("green"), 0, "", ""), None);
    assert LowerStr("green") == "green";
    assert LowerStr("tea") == "tea";
    assert LowerStr("T1") == "t1";
    ContainsAt("green", "green", 0);
  }

  /** The state of the create/edit dialog. */
  class ProductDialog {
    var dialogOpen: bool
    var editingProduct: Option<ProductWithCategory>

    constructor()
      ensures !dialogOpen && editingProduct.None?
    {
      dialogOpen := false;
      editingProduct := None;
    }

    /** `openCreateDialog`: the dialog opens with no product to edit. */
    method OpenCreateDialog()
      modifies this
      ensures dialogOpen && editingProduct.None?
    {
      editingProduct := None;
      dialogOpen := true;
    }

    /** `openEditDialog`: the dialog opens on `product`. */
    method OpenEditDialog(product: ProductWithCategory)
      modifies this
      ensures dialogOpen && editingProduct == Some(product)
    {
      editingProduct := Some(product);
      dialogOpen := true;
    }

    /** `closeDialog`: the dialog closes and forgets the product. */
    method CloseDialog()
      modifies this
      ensures !dialogOpen && editingProduct.None?
    {
      dialogOpen := false;
      editingProduct := None;
    }

    /** `handleUpdate`: the `updateProduct(id, data)` call it makes, if a product is
        being edited; none otherwise. The dialog state is left as it is. */
    method HandleUpdate(data: Operations.ProductPatch) returns (call: Option<(int, Operations.ProductPatch)>)
      ensures call.Some? <==> editingProduct.Some?
      ensures call.Some? ==> call.value == (editingProduct.value.row.id, data)
    {
      if editingProduct.Some? {
        call := Some((editingProduct.value.row.id, data));
      } else {
        call := None;
      }
    }
  }
}
