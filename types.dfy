/** The catalog's records and the store's seed catalog. */
module Types {
  import opened Options

  /** The two product categories. */
  datatype Category = Handmade | Homemade

  /** The category as the catalog filter spells it. */
  function CategoryName(c: Category): string
  {
    match c
    case Handmade => "Handmade"
    case Homemade => "Homemade"
  }

  /** A product: its price is in rupees; `longDescription` is optional. */
  datatype StoreItem = StoreItem(
    id: string,
    name: string,
    price: real,
    description: string,
    image: string,
    category: Category,
    stock: real,
    longDescription: Option<string>)

  /** A cart line: the product as it was when first added, and how many of it. */
  datatype CartItem = CartItem(item: StoreItem, quantity: int)

  /** The seed catalog both pages start from. */
  const StoreItems: seq<StoreItem> := [
    StoreItem("1", "Hand-stitched Silk Scarf", 3500.0,
              "Artisanal silk scarf with unique traditional patterns.",
              "https://images.unsplash.com/photo-1601924994987-69e26d50dc26?auto=format&fit=crop&q=80&w=800",
              Handmade, 5.0,
              Some("Each scarf is individually hand-stitched over 12 hours using 100% pure mulberry silk. The patterns are inspired by ancient Tattva symbols of harmony and balance. Measures 180x50cm.")),
    StoreItem("2", "Ceramic Tea Set", 8200.0,
              "Hand-thrown clay tea set with reactive glaze.",
              "https://images.unsplash.com/photo-1576020488411-291983719908?auto=format&fit=crop&q=80&w=800",
              Handmade, 2.0,
              Some("A complete 5-piece set including a teapot and four cups. Crafted from high-fire stoneware clay and finished with a custom-mixed \"Tattva Blue\" reactive glaze that varies slightly with every firing.")),
    StoreItem("3", "Organic Lavender Oil", 1200.0,
              "Home-distilled lavender oil from my own garden.",
              "https://images.unsplash.com/photo-1608571423902-eed4a5ad8108?auto=format&fit=crop&q=80&w=800",
              Homemade, 12.0,
              Some("Pure, undiluted essential oil distilled in small batches using a traditional copper alembic. The lavender is grown without pesticides in my own backyard garden. 15ml bottle.")),
    StoreItem("4", "Handmade Soy Candle", 850.0,
              "Scented with sandalwood and meditation herbs.",
              "https://images.unsplash.com/photo-1603006905003-be475563bc59?auto=format&fit=crop&q=80&w=800",
              Homemade, 20.0,
              Some("Poured by hand using 100% natural soy wax and wood wicks for a clean, crackling burn. Scented with premium essential oils to help ground your space during meditation."))
  ]

  /** No two products of a list share an id. */
  predicate DistinctIds(ps: seq<StoreItem>)
  {
    forall i, j :: 0 <= i < j < |ps| ==> ps[i].id != ps[j].id
  }
}
