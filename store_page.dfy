/**
 * The store page: catalog search, the shopping cart and the checkout
 * details derived from it. The cart is page state that only `addToCart`,
 * `removeFromCart` and a successful payment replace.
 */
module StorePage {
  import opened Options
  import opened Lists
  import opened Text
  import opened Types
  import opened Currency

  // ---- Cart values ----

  /** Some line of the cart holds the product with this id (`cart.find(i => i.id === id)` finds one). */
  predicate InCart(cart: seq<CartItem>, id: string)
  {
    exists i :: 0 <= i < |cart| && cart[i].item.id == id
  }

  /** What the cart operations keep: one line per product id and at least one of each. */
  predicate ValidCart(cart: seq<CartItem>)
  {
    && (forall i, j :: 0 <= i < j < |cart| ==> cart[i].item.id != cart[j].item.id)
    && (forall i :: 0 <= i < |cart| ==> cart[i].quantity >= 1)
  }

  /**
   * `addToCart`'s update: a product already in the cart has its line's
   * quantity raised by one (the line keeps the product as first added);
   * a new product is appended with quantity 1.
   */
  function CartAfterAdd(cart: seq<CartItem>, product: StoreItem): (r: seq<CartItem>)
    ensures InCart(r, product.id)
    ensures InCart(cart, product.id) ==>
      && |r| == |cart|
      && forall i :: 0 <= i < |r| ==>
           && r[i].item == cart[i].item
           && r[i].quantity == cart[i].quantity + (if cart[i].item.id == product.id then 1 else 0)
    ensures !InCart(cart, product.id) ==> r == cart + [CartItem(product, 1)]
  {
    if InCart(cart, product.id) then
      var r := seq(|cart|, i requires 0 <= i < |cart| =>
                 if cart[i].item.id == product.id then cart[i].(quantity := cart[i].quantity + 1) else cart[i]);
      var k :| 0 <= k < |cart| && cart[k].item.id == product.id;
      assert r[k].item.id == product.id;
      r
    else
      assert (cart + [CartItem(product, 1)])[|cart|].item.id == product.id;
      cart + [CartItem(product, 1)]
  }

  /** `removeFromCart`'s update: drop every line with the id, keep the rest in order. */
  function CartAfterRemove(cart: seq<CartItem>, id: string): (r: seq<CartItem>)
    ensures !InCart(r, id)
    ensures forall i :: 0 <= i < |r| ==> r[i] in cart
    ensures forall i :: 0 <= i < |cart| && cart[i].item.id != id ==> cart[i] in r
    ensures !InCart(cart, id) ==> r == cart
  {
    FilterMembers(cart, (x: CartItem) => x.item.id != id);
    var r := Filter(cart, (x: CartItem) => x.item.id != id);
    assert !InCart(cart, id) ==> r == cart by {
      if !InCart(cart, id) {
        FilterKeepsAll(cart, (x: CartItem) => x.item.id != id);
      }
    }
    r
  }

  function Quantity(line: CartItem): real { line.quantity as real }

  function LineTotal(line: CartItem): real { line.item.price * line.quantity as real }

  /** The cart badge: `cart.reduce((a, b) => a + b.quantity, 0)`. */
  function ItemCount(cart: seq<CartItem>): (r: real)
    ensures (forall i :: 0 <= i < |cart| ==> cart[i].quantity >= 1) ==> r >= |cart| as real
  {
    assert (forall i :: 0 <= i < |cart| ==> cart[i].quantity >= 1) ==> Sum(cart, Quantity) >= |cart| as real by {
      if forall i :: 0 <= i < |cart| ==> cart[i].quantity >= 1 {
        CountAtLeastLines(cart);
      }
    }
    Sum(cart, Quantity)
  }

  /** `cartTotal`: the sum of price times quantity, in rupees. */
  function CartTotal(cart: seq<CartItem>): (r: real)
    ensures (forall i :: 0 <= i < |cart| ==> cart[i].item.price >= 0.0 && cart[i].quantity >= 0) ==> r >= 0.0
  {
    assert (forall i :: 0 <= i < |cart| ==> cart[i].item.price >= 0.0 && cart[i].quantity >= 0) ==> Sum(cart, LineTotal) >= 0.0 by {
      if forall i :: 0 <= i < |cart| ==> cart[i].item.price >= 0.0 && cart[i].quantity >= 0 {
        SumNonNegative(cart, LineTotal);
      }
    }
    Sum(cart, LineTotal)
  }

  // ---- Cart properties ----

  /** Adding keeps one line per id and every quantity positive. */
  lemma AddKeepsValid(cart: seq<CartItem>, product: StoreItem)
    requires ValidCart(cart)
    ensures ValidCart(CartAfterAdd(cart, product))
  {
    var r := CartAfterAdd(cart, product);
    if !InCart(cart, product.id) {
      forall i, j | 0 <= i < j < |r| ensures r[i].item.id != r[j].item.id {
        if j == |cart| {
          assert r[i] == cart[i];
        }
      }
    }
  }

  /** Removing keeps one line per id and every quantity positive. */
  lemma RemoveKeepsValid(cart: seq<CartItem>, id: string)
    requires ValidCart(cart)
    ensures ValidCart(CartAfterRemove(cart, id))
  {
    FilterKeepsValid(cart, (x: CartItem) => x.item.id != id);
  }

  lemma FilterKeepsValid(cart: seq<CartItem>, keep: CartItem -> bool)
    requires ValidCart(cart)
    ensures ValidCart(Filter(cart, keep))
  {
    FilterKeepsDistinctKeys(cart, keep, (x: CartItem) => x.item.id);
    FilterKeepsProperty(cart, keep, (x: CartItem) => x.quantity >= 1);
  }

  /** A line with the product's id, if the cart has one. */
  lemma OnlyLineWithId(cart: seq<CartItem>, id: string) returns (k: int)
    requires ValidCart(cart) && InCart(cart, id)
    ensures 0 <= k < |cart| && cart[k].item.id == id
    ensures forall i :: 0 <= i < |cart| && i != k ==> cart[i].item.id != id
  {
    k :| 0 <= k < |cart| && cart[k].item.id == id;
    forall i | 0 <= i < |cart| && i != k ensures cart[i].item.id != id {
      if i < k { assert cart[i].item.id != cart[k].item.id; }
      else { assert cart[k].item.id != cart[i].item.id; }
    }
  }

  /** The badge count rises by exactly one per add. */
  lemma AddRaisesItemCountByOne(cart: seq<CartItem>, product: StoreItem)
    requires ValidCart(cart)
    ensures ItemCount(CartAfterAdd(cart, product)) == ItemCount(cart) + 1.0
  {
    var r := CartAfterAdd(cart, product);
    if InCart(cart, product.id) {
      var k := OnlyLineWithId(cart, product.id);
      SumBump(cart, r, Quantity, k, 1.0);
    } else {
      SumAppend(cart, [CartItem(product, 1)], Quantity);
    }
  }

  /** Adding a new product adds its price; adding one already in the cart adds the price its line was added at. */
  lemma AddRaisesTotalByOnePrice(cart: seq<CartItem>, product: StoreItem)
    requires ValidCart(cart)
    ensures !InCart(cart, product.id) ==> CartTotal(CartAfterAdd(cart, product)) == CartTotal(cart) + product.price
    ensures forall k :: 0 <= k < |cart| && cart[k].item.id == product.id ==>
      CartTotal(CartAfterAdd(cart, product)) == CartTotal(cart) + cart[k].item.price
  {
    var r := CartAfterAdd(cart, product);
    if InCart(cart, product.id) {
      var k := OnlyLineWithId(cart, product.id);
      forall i | 0 <= i < |cart|
        ensures LineTotal(r[i]) == LineTotal(cart[i]) + (if i == k then cart[k].item.price else 0.0)
      {
        if i == k {
          assert r[i].quantity as real == cart[i].quantity as real + 1.0;
        }
      }
      SumBump(cart, r, LineTotal, k, cart[k].item.price);
    } else {
      SumAppend(cart, [CartItem(product, 1)], LineTotal);
    }
  }

  /** The lines a removal drops. */
  function LinesWithId(cart: seq<CartItem>, id: string): seq<CartItem>
  {
    Filter(cart, (x: CartItem) => x.item.id == id)
  }

  /** Removing an id takes exactly that id's lines off the cart, off the badge count and off the total. */
  lemma RemoveSubtractsLines(cart: seq<CartItem>, id: string)
    ensures |cart| == |CartAfterRemove(cart, id)| + |LinesWithId(cart, id)|
    ensures ItemCount(cart) == ItemCount(CartAfterRemove(cart, id)) + ItemCount(LinesWithId(cart, id))
    ensures CartTotal(cart) == CartTotal(CartAfterRemove(cart, id)) + CartTotal(LinesWithId(cart, id))
  {
    var keep := (x: CartItem) => x.item.id != id;
    var drop := (x: CartItem) => x.item.id == id;
    FilterPartition(cart, keep, drop);
    SumPartition(cart, Quantity, keep, drop);
    SumPartition(cart, LineTotal, keep, drop);
  }

  /** Removing keeps the surviving lines in order: it distributes over splitting the cart. */
  lemma RemoveKeepsOrder(a: seq<CartItem>, b: seq<CartItem>, id: string)
    ensures CartAfterRemove(a + b, id) == CartAfterRemove(a, id) + CartAfterRemove(b, id)
  {
    FilterAppend(a, b, (x: CartItem) => x.item.id != id);
  }

  /** The badge count and the total of a valid cart are non-negative, and both are 0 for the empty cart. */
  lemma TotalsOfValidCart(cart: seq<CartItem>)
    requires ValidCart(cart)
    requires forall i :: 0 <= i < |cart| ==> cart[i].item.price >= 0.0
    ensures ItemCount(cart) >= 0.0 && CartTotal(cart) >= 0.0
    ensures cart == [] ==> ItemCount(cart) == 0.0 && CartTotal(cart) == 0.0
    ensures ItemCount(cart) >= |cart| as real
  {
    SumNonNegative(cart, Quantity);
    SumNonNegative(cart, LineTotal);
    CountAtLeastLines(cart);
  }

  lemma {:induction false} CountAtLeastLines(cart: seq<CartItem>)
    requires forall i :: 0 <= i < |cart| ==> cart[i].quantity >= 1
    ensures Sum(cart, Quantity) >= |cart| as real
  {
    if cart != [] {
      CountAtLeastLines(cart[1..]);
    }
  }

  // ---- Reachable carts ----

  /** The ways the cart is replaced: the two buttons and the reset after a successful payment. */
  datatype CartAction = Add(product: StoreItem) | Remove(id: string) | PaymentSucceeded

  function Step(cart: seq<CartItem>, action: CartAction): seq<CartItem>
  {
    match action
    case Add(p) => CartAfterAdd(cart, p)
    case Remove(id) => CartAfterRemove(cart, id)
    case PaymentSucceeded => []
  }

  /** The cart after a run of actions from the empty cart the page starts with. */
  function Replay(actions: seq<CartAction>): seq<CartItem>
  {
    if actions == [] then [] else Step(Replay(actions[..|actions| - 1]), actions[|actions| - 1])
  }

  /** Every cart the page can reach has one line per id and positive quantities. */
  lemma {:induction false} ReachableCartsValid(actions: seq<CartAction>)
    ensures ValidCart(Replay(actions))
  {
    if actions != [] {
      var prev := Replay(actions[..|actions| - 1]);
      ReachableCartsValid(actions[..|actions| - 1]);
      match actions[|actions| - 1]
      case Add(p) => AddKeepsValid(prev, p);
      case Remove(id) => RemoveKeepsValid(prev, id);
      case PaymentSucceeded =>
    }
  }

  // ---- Catalog search ----

  /** The category tab: `'All'` shows everything, a category tab its own category, any other tab nothing. */
  predicate MatchesFilter(item: StoreItem, filter: string)
    ensures filter == "All" ==> MatchesFilter(item, filter)
    ensures filter == "Handmade" ==> (MatchesFilter(item, filter) <==> item.category == Handmade)
    ensures filter == "Homemade" ==> (MatchesFilter(item, filter) <==> item.category == Homemade)
    ensures filter != "All" && filter != "Handmade" && filter != "Homemade" ==> !MatchesFilter(item, filter)
  {
    filter == "All" || CategoryName(item.category) == filter
  }

  /** The search box: the lower-cased query occurs in the lower-cased name or description. */
  predicate MatchesSearch(item: StoreItem, search: string)
    ensures search == "" ==> MatchesSearch(item, search)
    ensures MatchesSearch(item, search) <==>
      (exists k :: OccursAt(ToLower(item.name), ToLower(search), k)) ||
      (exists k :: OccursAt(ToLower(item.description), ToLower(search), k))
  {
    ContainsIff(ToLower(item.name), ToLower(search));
    ContainsIff(ToLower(item.description), ToLower(search));
    Contains(ToLower(item.name), ToLower(search)) || Contains(ToLower(item.description), ToLower(search))
  }

  predicate Shown(item: StoreItem, filter: string, search: string)
  {
    MatchesFilter(item, filter) && MatchesSearch(item, search)
  }

  /** `filteredItems`: the products that pass both the tab and the search, in catalog order. */
  function FilteredItems(products: seq<StoreItem>, filter: string, search: string): (r: seq<StoreItem>)
    ensures |r| <= |products|
    ensures forall i :: 0 <= i < |r| ==> r[i] in products && MatchesFilter(r[i], filter) && MatchesSearch(r[i], search)
    ensures forall i :: 0 <= i < |products| && MatchesFilter(products[i], filter) && MatchesSearch(products[i], search)
              ==> products[i] in r
  {
    FilterMembers(products, (item: StoreItem) => Shown(item, filter, search));
    Filter(products, (item: StoreItem) => Shown(item, filter, search))
  }

  /** The `All` tab with an empty search shows the whole catalog, in order. */
  lemma EmptySearchShowsAll(products: seq<StoreItem>)
    ensures FilteredItems(products, "All", "") == products
  {
    forall i | 0 <= i < |products| ensures Shown(products[i], "All", "") {
      assert "" <= ToLower(products[i].name);
    }
    FilterKeepsAll(products, (item: StoreItem) => Shown(item, "All", ""));
  }

  /** The search ignores the case of ASCII letters in the query. */
  lemma SearchIgnoresCase(products: seq<StoreItem>, filter: string, search: string)
    ensures FilteredItems(products, filter, ToLower(search)) == FilteredItems(products, filter, search)
  {
    ToLowerIdempotent(search);
    FilterCongruent(products, (item: StoreItem) => Shown(item, filter, ToLower(search)),
                              (item: StoreItem) => Shown(item, filter, search));
  }

  /** A category tab shows only products of that category. */
  lemma CategoryTabShowsOnlyCategory(products: seq<StoreItem>, c: Category, search: string)
    ensures forall i :: 0 <= i < |FilteredItems(products, CategoryName(c), search)| ==>
      FilteredItems(products, CategoryName(c), search)[i].category == c
  {
  }

  /** Searching keeps catalog order: it distributes over splitting the catalog. */
  lemma SearchKeepsOrder(a: seq<StoreItem>, b: seq<StoreItem>, filter: string, search: string)
    ensures FilteredItems(a + b, filter, search) == FilteredItems(a, filter, search) + FilteredItems(b, filter, search)
  {
    FilterAppend(a, b, (item: StoreItem) => Shown(item, filter, search));
  }

  // ---- Checkout details ----

  /**
   * The WhatsApp number with every non-digit removed: the digits of the input,
   * in order (see `KeepDigits` and `KeepDigitsAppend`), and nothing else.
   */
  function CleanNumber(whatsappNumber: string): (r: string)
    ensures r == KeepDigits(whatsappNumber)
    ensures forall i :: 0 <= i < |r| ==> IsDigit(r[i])
    ensures forall i :: 0 <= i < |whatsappNumber| && IsDigit(whatsappNumber[i]) ==> whatsappNumber[i] in r
    ensures AllDigits(whatsappNumber) ==> r == whatsappNumber
    ensures KeepDigits(r) == r
  {
    KeepDigitsIdempotent(whatsappNumber);
    assert AllDigits(whatsappNumber) ==> KeepDigits(whatsappNumber) == whatsappNumber by {
      if AllDigits(whatsappNumber) {
        KeepDigitsOfDigits(whatsappNumber);
      }
    }
    KeepDigits(whatsappNumber)
  }

  /** The Google Pay country: India for rupees, the United States for any other currency. */
  function GPayCountryCode(currencyCode: string): (country: string)
    ensures country == "IN" <==> currencyCode == BaseCode
    ensures country != "IN" ==> country == "US"
  {
    if currencyCode == BaseCode then "IN" else "US"
  }

  /** The transaction details sent with a Google Pay request. */
  datatype TransactionInfo = TransactionInfo(totalPrice: real, currencyCode: string, countryCode: string)

  /** The amount is converted exactly as `formatPrice` converts it (the `toFixed(2)` rounding is not modelled). */
  function GPayTransaction(inrAmount: real, config: CurrencyConfig): (t: TransactionInfo)
    ensures forall language :: t.totalPrice == FormatPrice(inrAmount, config, language).amount
    ensures t.currencyCode == config.code
    ensures t.countryCode == "IN" <==> config.code == BaseCode
  {
    TransactionInfo(inrAmount * config.rate, config.code, GPayCountryCode(config.code))
  }

  // ---- The page state ----

  /** The store page's state: the catalog, the tab, the query, the cart and whether its drawer is open. */
  class Store {
    var products: seq<StoreItem>
    var filter: string
    var search: string
    var cart: seq<CartItem>
    var cartOpen: bool

    ghost predicate Valid()
      reads this
    {
      ValidCart(cart)
    }

    /** The page mounts with the seed catalog, the `All` tab, no query and an empty, closed cart. */
    constructor ()
      ensures Valid()
      ensures products == StoreItems && filter == "All" && search == ""
      ensures cart == [] && !cartOpen
      ensures Visible() == StoreItems
    {
      products := StoreItems;
      filter := "All";
      search := "";
      cart := [];
      cartOpen := false;
      new;
      EmptySearchShowsAll(products);
    }

    /** `addToCart`: update the cart and open its drawer. */
    method AddToCart(product: StoreItem)
      requires Valid()
      modifies this
      ensures Valid()
      ensures cart == CartAfterAdd(old(cart), product)
      ensures ItemCount(cart) == ItemCount(old(cart)) + 1.0
      ensures cartOpen
      ensures products == old(products) && filter == old(filter) && search == old(search)
      ensures Visible() == old(Visible())
    {
      AddKeepsValid(cart, product);
      AddRaisesItemCountByOne(cart, product);
      cart := CartAfterAdd(cart, product);
      cartOpen := true;
    }

    /** `removeFromCart`. */
    method RemoveFromCart(id: string)
      requires Valid()
      modifies this`cart
      ensures Valid()
      ensures cart == CartAfterRemove(old(cart), id)
      ensures !InCart(cart, id)
      ensures Visible() == old(Visible())
    {
      RemoveKeepsValid(cart, id);
      cart := CartAfterRemove(cart, id);
    }

    /** After an authorised payment the cart is emptied and its drawer closed. */
    method PaymentSucceeded()
      requires Valid()
      modifies this`cart, this`cartOpen
      ensures Valid()
      ensures cart == [] && !cartOpen
    {
      cart := [];
      cartOpen := false;
    }

    /** What the catalog grid shows. */
    function Visible(): (r: seq<StoreItem>)
      reads this
      ensures |r| <= |products|
      ensures forall i :: 0 <= i < |r| ==> r[i] in products && MatchesFilter(r[i], filter) && MatchesSearch(r[i], search)
    {
      FilteredItems(products, filter, search)
    }
  }
}
