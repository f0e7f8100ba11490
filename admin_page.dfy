/**
 * The admin dashboard's product catalog: deleting, saving (edit in place or
 * add at the front), the low-stock panel and the inventory totals. The
 * catalog is page state that only delete and save replace.
 */
module AdminPage {
  import opened Options
  import opened Lists
  import opened Types

  /** The picture a product gets when the form's image field is left empty. */
  const DefaultImage: string :=
    "https://images.unsplash.com/photo-1513519245088-0e12902e35ca?auto=format&fit=crop&q=80&w=800"

  /** The product form's fields, with price and stock already read as numbers. */
  datatype ProductForm = ProductForm(
    name: string,
    price: real,
    description: string,
    image: string,
    category: Category,
    stock: real,
    longDescription: string)

  /** `editingProduct?.id || <fresh id>`: an edited product keeps its id unless that id is empty. */
  function SavedId(editing: Option<StoreItem>, freshId: string): (id: string)
    ensures editing.Some? && editing.value.id != "" ==> id == editing.value.id
    ensures editing.None? || editing.value.id == "" ==> id == freshId
  {
    if editing.Some? && editing.value.id != "" then editing.value.id else freshId
  }

  /** An empty image field becomes the default picture. */
  function ImageOrDefault(image: string): (r: string)
    ensures r != ""
    ensures image != "" ==> r == image
    ensures image == "" ==> r == DefaultImage
  {
    if image != "" then image else DefaultImage
  }

  /** The product `handleSaveProduct` builds from the form. */
  function BuildProduct(editing: Option<StoreItem>, form: ProductForm, freshId: string): (p: StoreItem)
    ensures p.id == SavedId(editing, freshId)
    ensures p.image != "" && (form.image != "" ==> p.image == form.image)
    ensures p.name == form.name && p.price == form.price && p.stock == form.stock && p.category == form.category
    ensures p.description == form.description && p.longDescription == Some(form.longDescription)
  {
    StoreItem(SavedId(editing, freshId), form.name, form.price, form.description,
              ImageOrDefault(form.image), form.category, form.stock, Some(form.longDescription))
  }

  /** `handleDeleteProduct`'s update: every product with the id goes, the rest stay in order. */
  function CatalogWithout(products: seq<StoreItem>, id: string): (r: seq<StoreItem>)
    ensures forall i :: 0 <= i < |r| ==> r[i].id != id && r[i] in products
    ensures forall i :: 0 <= i < |products| && products[i].id != id ==> products[i] in r
    ensures (forall i :: 0 <= i < |products| ==> products[i].id != id) ==> r == products
  {
    FilterMembers(products, (p: StoreItem) => p.id != id);
    var r := Filter(products, (p: StoreItem) => p.id != id);
    assert (forall i :: 0 <= i < |products| ==> products[i].id != id) ==> r == products by {
      if forall i :: 0 <= i < |products| ==> products[i].id != id {
        FilterKeepsAll(products, (p: StoreItem) => p.id != id);
      }
    }
    r
  }

  /** Saving while editing: every product with the edited id is replaced, nothing else moves. */
  function CatalogWithReplaced(products: seq<StoreItem>, editedId: string, updated: StoreItem): (r: seq<StoreItem>)
    ensures |r| == |products|
    ensures forall i :: 0 <= i < |r| && products[i].id == editedId ==> r[i] == updated
    ensures forall i :: 0 <= i < |r| && products[i].id != editedId ==> r[i] == products[i]
  {
    seq(|products|, i requires 0 <= i < |products| => if products[i].id == editedId then updated else products[i])
  }

  /** `handleSaveProduct`'s update: replace when editing, otherwise put the new product first. */
  function CatalogAfterSave(products: seq<StoreItem>, editing: Option<StoreItem>, updated: StoreItem): (r: seq<StoreItem>)
    ensures editing.Some? ==> r == CatalogWithReplaced(products, editing.value.id, updated)
    ensures editing.None? ==> |r| == |products| + 1 && r[0] == updated && r[1..] == products
  {
    match editing
    case Some(e) => CatalogWithReplaced(products, e.id, updated)
    case None => [updated] + products
  }

  function Ids(products: seq<StoreItem>): seq<string>
  {
    seq(|products|, i requires 0 <= i < |products| => products[i].id)
  }

  /** Editing a product whose id is non-empty keeps the list of ids, and so keeps them distinct. */
  lemma EditKeepsIds(products: seq<StoreItem>, edited: StoreItem, form: ProductForm, freshId: string)
    requires edited.id != ""
    ensures Ids(CatalogAfterSave(products, Some(edited), BuildProduct(Some(edited), form, freshId))) == Ids(products)
    ensures DistinctIds(products) ==>
      DistinctIds(CatalogAfterSave(products, Some(edited), BuildProduct(Some(edited), form, freshId)))
  {
    var r := CatalogAfterSave(products, Some(edited), BuildProduct(Some(edited), form, freshId));
    assert forall i :: 0 <= i < |r| ==> r[i].id == products[i].id;
  }

  /** A new product with an id not yet in the catalog keeps the ids distinct. */
  lemma AddKeepsDistinct(products: seq<StoreItem>, form: ProductForm, freshId: string)
    requires DistinctIds(products)
    requires forall i :: 0 <= i < |products| ==> products[i].id != freshId
    ensures DistinctIds(CatalogAfterSave(products, None, BuildProduct(None, form, freshId)))
    ensures CatalogAfterSave(products, None, BuildProduct(None, form, freshId))[0].id == freshId
  {
    var r := CatalogAfterSave(products, None, BuildProduct(None, form, freshId));
    forall i, j | 0 <= i < j < |r| ensures r[i].id != r[j].id {
      assert r[j] == products[j - 1];
      if i > 0 { assert r[i] == products[i - 1]; }
    }
  }

  /** Editing a product saved with an empty id gives it the fresh id, in every line that had the empty id. */
  lemma EditOfEmptyIdTakesFreshId(products: seq<StoreItem>, edited: StoreItem, form: ProductForm, freshId: string)
    requires edited.id == ""
    ensures forall i :: 0 <= i < |products| && products[i].id == "" ==>
      CatalogAfterSave(products, Some(edited), BuildProduct(Some(edited), form, freshId))[i].id == freshId
  {
  }

  /** Deleting keeps the ids distinct and the surviving products in order. */
  lemma DeleteKeepsDistinctAndOrder(products: seq<StoreItem>, a: seq<StoreItem>, b: seq<StoreItem>, id: string)
    ensures DistinctIds(products) ==> DistinctIds(CatalogWithout(products, id))
    ensures CatalogWithout(a + b, id) == CatalogWithout(a, id) + CatalogWithout(b, id)
  {
    FilterAppend(a, b, (p: StoreItem) => p.id != id);
    if DistinctIds(products) {
      FilterKeepsDistinct(products, (p: StoreItem) => p.id != id);
    }
  }

  lemma FilterKeepsDistinct(products: seq<StoreItem>, keep: StoreItem -> bool)
    requires DistinctIds(products)
    ensures DistinctIds(Filter(products, keep))
  {
    FilterKeepsDistinctKeys(products, keep, (p: StoreItem) => p.id);
  }

  // ---- The dashboard panels ----

  predicate IsLowStock(p: StoreItem) { p.stock < 5.0 }

  /** The low-stock panel: exactly the products with fewer than five in stock, in catalog order. */
  function LowStock(products: seq<StoreItem>): (r: seq<StoreItem>)
    ensures |r| <= |products|
    ensures forall i :: 0 <= i < |r| ==> r[i].stock < 5.0 && r[i] in products
    ensures forall i :: 0 <= i < |products| && products[i].stock < 5.0 ==> products[i] in r
  {
    FilterMembers(products, IsLowStock);
    Filter(products, IsLowStock)
  }

  /** The low-stock panel lists products in catalog order: it distributes over splitting the catalog. */
  lemma LowStockKeepsOrder(a: seq<StoreItem>, b: seq<StoreItem>)
    ensures LowStock(a + b) == LowStock(a) + LowStock(b)
  {
    FilterAppend(a, b, IsLowStock);
  }

  function StockOf(p: StoreItem): real { p.stock }

  function RetailValue(p: StoreItem): real { p.price * p.stock }

  /** The total retail value: price times stock summed over the catalog, in rupees. */
  function InventoryValue(products: seq<StoreItem>): (r: real)
    ensures (forall i :: 0 <= i < |products| ==> products[i].price >= 0.0 && products[i].stock >= 0.0) ==> r >= 0.0
  {
    assert (forall i :: 0 <= i < |products| ==> products[i].price >= 0.0 && products[i].stock >= 0.0) ==> Sum(products, RetailValue) >= 0.0 by {
      if forall i :: 0 <= i < |products| ==> products[i].price >= 0.0 && products[i].stock >= 0.0 {
        SumNonNegative(products, RetailValue);
      }
    }
    Sum(products, RetailValue)
  }

  /** The total unit count: the stock summed over the catalog. */
  function UnitCount(products: seq<StoreItem>): (r: real)
    ensures (forall i :: 0 <= i < |products| ==> products[i].stock >= 0.0) ==> r >= 0.0
  {
    assert (forall i :: 0 <= i < |products| ==> products[i].stock >= 0.0) ==> Sum(products, StockOf) >= 0.0 by {
      if forall i :: 0 <= i < |products| ==> products[i].stock >= 0.0 {
        SumNonNegative(products, StockOf);
      }
    }
    Sum(products, StockOf)
  }

  /** An empty catalog is worth nothing and holds no units; one with non-negative prices and stock is worth at least 0. */
  lemma TotalsOfCatalog(products: seq<StoreItem>)
    ensures products == [] ==> InventoryValue(products) == 0.0 && UnitCount(products) == 0.0
    ensures (forall i :: 0 <= i < |products| ==> products[i].price >= 0.0 && products[i].stock >= 0.0) ==>
      InventoryValue(products) >= 0.0 && UnitCount(products) >= 0.0
  {
    if forall i :: 0 <= i < |products| ==> products[i].price >= 0.0 && products[i].stock >= 0.0 {
      SumNonNegative(products, RetailValue);
      SumNonNegative(products, StockOf);
    }
  }

  /** Adding a product adds its value and its units to the totals. */
  lemma AddRaisesTotals(products: seq<StoreItem>, p: StoreItem)
    ensures InventoryValue(CatalogAfterSave(products, None, p)) == InventoryValue(products) + p.price * p.stock
    ensures UnitCount(CatalogAfterSave(products, None, p)) == UnitCount(products) + p.stock
  {
    SumAppend([p], products, RetailValue);
    SumAppend([p], products, StockOf);
  }

  /** Editing the one product with an id swaps its value and units for the updated product's. */
  lemma EditAdjustsTotals(products: seq<StoreItem>, k: int, updated: StoreItem)
    requires DistinctIds(products) && 0 <= k < |products|
    ensures UnitCount(CatalogWithReplaced(products, products[k].id, updated)) ==
      UnitCount(products) + (updated.stock - products[k].stock)
    ensures InventoryValue(CatalogWithReplaced(products, products[k].id, updated)) ==
      InventoryValue(products) + (RetailValue(updated) - RetailValue(products[k]))
  {
    var r := CatalogWithReplaced(products, products[k].id, updated);
    forall i | 0 <= i < |products| && i != k ensures r[i] == products[i] {
      if i < k { assert products[i].id != products[k].id; } else { assert products[k].id != products[i].id; }
    }
    SumBump(products, r, StockOf, k, updated.stock - products[k].stock);
    SumBump(products, r, RetailValue, k, RetailValue(updated) - RetailValue(products[k]));
  }

  /** Deleting an id takes exactly the deleted products' value and units off the totals. */
  lemma DeleteLowersTotals(products: seq<StoreItem>, id: string)
    ensures InventoryValue(products) ==
      InventoryValue(CatalogWithout(products, id)) + InventoryValue(Filter(products, (p: StoreItem) => p.id == id))
    ensures UnitCount(products) ==
      UnitCount(CatalogWithout(products, id)) + UnitCount(Filter(products, (p: StoreItem) => p.id == id))
  {
    var keep := (p: StoreItem) => p.id != id;
    var drop := (p: StoreItem) => p.id == id;
    SumPartition(products, RetailValue, keep, drop);
    SumPartition(products, StockOf, keep, drop);
  }

  /** On the seed catalog only the tea set is low on stock; the catalog holds 39 units worth 65,300 rupees. */
  lemma SeedCatalogPanels()
    ensures LowStock(StoreItems) == [StoreItems[1]]
    ensures UnitCount(StoreItems) == 39.0
    ensures InventoryValue(StoreItems) == 65300.0
  {
    var s := StoreItems;
    assert s[1..][1..][1..][1..] == [];
    assert Filter(s[1..][1..][1..], IsLowStock) == [];
    assert Filter(s[1..][1..], IsLowStock) == [];
    assert Filter(s[1..], IsLowStock) == [s[1]];
    assert Sum(s[1..][1..][1..], StockOf) == 20.0;
    assert Sum(s[1..][1..][1..], RetailValue) == 17000.0;
  }

  // ---- The page state ----

  /** The admin page's catalog. */
  class Catalog {
    var products: seq<StoreItem>

    /** The page mounts with the seed catalog. */
    constructor ()
      ensures products == StoreItems
    {
      products := StoreItems;
    }

    /** `handleDeleteProduct`: when the shopkeeper confirms, remove the id. */
    method DeleteProduct(id: string, confirmed: bool)
      modifies this
      ensures products == if confirmed then CatalogWithout(old(products), id) else old(products)
      ensures confirmed ==> forall i :: 0 <= i < |products| ==> products[i].id != id
    {
      if confirmed {
        products := CatalogWithout(products, id);
      }
    }

    /**
     * `handleSaveProduct`: build the product from the form (`freshId` stands
     * for the random id) and either replace the edited product or prepend it.
     */
    method SaveProduct(editing: Option<StoreItem>, form: ProductForm, freshId: string) returns (saved: StoreItem)
      modifies this
      ensures saved == BuildProduct(editing, form, freshId)
      ensures products == CatalogAfterSave(old(products), editing, saved)
      ensures editing.None? ==> |products| == |old(products)| + 1 && products[0] == saved
      ensures editing.Some? ==> |products| == |old(products)|
    {
      saved := BuildProduct(editing, form, freshId);
      products := CatalogAfterSave(products, editing, saved);
    }
  }
}
