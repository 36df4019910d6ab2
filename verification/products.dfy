/** The product record every component reads, and the twelve-product
    catalog the storefront ships with (src/data/products.js). */
module Products {
  import opened Common

  /** A catalog product. Fields a record may lack are `Option`s, so the
      components' `||` defaults can be stated; `createdAt` is a day number
      counted from 1970-01-01, and the free-text description is not kept. */
  datatype Product = Product(
    id: int,
    name: string,
    brand: string,
    price: real,
    category: string,
    images: seq<string>,
    sizes: seq<real>,
    colors: seq<string>,
    stock: Option<int>,
    discount: Option<int>,
    isNew: bool,
    rating: Option<real>,
    reviewCount: Option<int>,
    createdAt: Option<int>,
    onSale: bool)

  /** The catalog, in file order. */
  const Catalog: seq<Product> := [
    Product(1, "Air Jordan 1 Retro High OG", "Jordan", 180.0, "Retro",
      ["/images/jordan1_Chicago_1.webp", "/images/jordan1_Chicago_2.webp", "/images/jordan1_Chicago_3.webp"],
      [7.0, 8.0, 8.5, 9.0, 9.5, 10.0, 11.0, 12.0], ["#B91C1C", "#FFFFFF", "#000000"],
      Some(15), Some(0), true, Some(4.9), Some(450), Some(19763), false),
    Product(2, "Nike Dunk Low Panda", "Nike", 110.0, "Casual",
      ["/images/dunklow_panda_1.webp", "/images/dunklow_panda_2.webp"],
      [5.0, 6.0, 7.0, 8.0, 9.0, 10.0], ["#000000", "#FFFFFF"],
      Some(5), Some(0), false, Some(4.7), Some(890), Some(19676), false),
    Product(3, "Adidas Yeezy Boost 350 V2", "Adidas", 230.0, "Modern",
      ["/images/yeezy350_1.webp", "/images/yeezy350_2.webp"],
      [8.0, 9.0, 10.0, 11.0], ["#D1D5DB", "#4B5563"],
      Some(20), Some(10), false, Some(4.8), Some(320), Some(19742), false),
    Product(4, "New Balance 550 White Green", "New Balance", 130.0, "Retro",
      ["/images/nb550_green_1.webp"],
      [7.0, 8.0, 9.0, 10.0, 11.0, 12.0], ["#FFFFFF", "#10B981"],
      Some(8), Some(0), true, Some(4.6), Some(150), Some(19754), false),
    Product(5, "Converse Chuck 70 High", "Converse", 85.0, "Clásicos",
      ["/images/chuck70_black_1.webp"],
      [6.0, 7.0, 8.0, 9.0, 10.0, 11.0, 12.0], ["#000000", "#F3F4F6"],
      Some(50), Some(15), false, Some(4.9), Some(1200), Some(19487), false),
    Product(6, "Puma Suede Classic XXI", "Puma", 70.0, "Retro",
      ["/images/pumasuede_black_1.webp"],
      [8.0, 9.0, 10.0], ["#000000", "#FFFFFF"],
      Some(12), Some(0), false, Some(4.5), Some(230), Some(19601), false),
    Product(7, "Nike Air Max 90", "Nike", 140.0, "Sport",
      ["/images/airmax90_white_1.webp"],
      [7.0, 8.0, 9.0, 10.0, 11.0, 12.0], ["#FFFFFF", "#9CA3AF"],
      Some(25), Some(20), false, Some(4.7), Some(560), Some(19692), false),
    Product(8, "Air Jordan 4 Retro Military Black", "Jordan", 210.0, "Retro",
      ["/images/jordan4_military_1.webp"],
      [9.0, 10.0, 11.0, 12.0], ["#FFFFFF", "#000000", "#9CA3AF"],
      Some(3), Some(0), true, Some(5.0), Some(85), Some(19768), false),
    Product(9, "Vans Old Skool", "Vans", 75.0, "Skate",
      ["/images/vans_oldskool_1.webp"],
      [6.0, 7.0, 8.0, 9.0, 10.0, 11.0], ["#000000", "#FFFFFF"],
      Some(40), Some(5), false, Some(4.8), Some(950), Some(19528), false),
    Product(10, "Adidas Forum Low", "Adidas", 100.0, "Retro",
      ["/images/adidas_forum_1.webp"],
      [7.0, 8.0, 9.0, 10.0, 11.0], ["#FFFFFF", "#3B82F6"],
      Some(18), Some(0), true, Some(4.6), Some(180), Some(19732), false),
    Product(11, "New Balance 2002R Protection Pack", "New Balance", 160.0, "Modern",
      ["/images/nb2002r_grey_1.webp"],
      [8.0, 9.0, 10.0, 11.0], ["#9CA3AF", "#D1D5DB"],
      Some(0), Some(0), true, Some(4.8), Some(95), Some(19758), false),
    Product(12, "Reebok Club C 85 Vintage", "Reebok", 90.0, "Clásicos",
      ["/images/reebok_clubc_1.webp"],
      [6.0, 7.0, 8.0, 9.0, 10.0, 11.0], ["#FEF3C7", "#10B981"],
      Some(22), Some(0), false, Some(4.7), Some(410), Some(19584), false)
  ]

  /** The shape of the shipped catalog: ids 1..12 in order (so pairwise
      distinct), discounts drawn from {0, 5, 10, 15, 20}, non-empty image,
      size and color lists, non-negative stock with product 11 sold out, a
      creation date everywhere and no `onSale` flag anywhere. */
  lemma CatalogShape()
    ensures |Catalog| == 12
    ensures forall i | 0 <= i < |Catalog| :: Catalog[i].id == i + 1
    ensures forall i, j | 0 <= i < j < |Catalog| :: Catalog[i].id != Catalog[j].id
    ensures forall i | 0 <= i < |Catalog| ::
      Catalog[i].discount.Some? && Catalog[i].discount.value in {0, 5, 10, 15, 20}
    ensures forall i | 0 <= i < |Catalog| ::
      |Catalog[i].images| > 0 && |Catalog[i].sizes| > 0 && |Catalog[i].colors| > 0
    ensures forall i | 0 <= i < |Catalog| :: Catalog[i].stock.Some? && Catalog[i].stock.value >= 0
    ensures Catalog[10].id == 11 && Catalog[10].stock == Some(0)
    ensures forall i | 0 <= i < |Catalog| :: Catalog[i].createdAt.Some? && !Catalog[i].onSale
    ensures 8.5 in Catalog[0].sizes
  {
  }
}
