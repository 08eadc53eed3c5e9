/**
 * The storefront's data model (src/types/index.ts).
 *
 * Prices are JavaScript numbers in the source; here they are integer cents, so
 * `price * quantity` and the cart total are exact. A price range whose `max` is
 * `Infinity` ("Over $200") has `max == None`.
 */
module Types {

  /** A possibly absent value: an optional field of a TypeScript interface. */
  datatype Option<+T> = None | Some(value: T)

  datatype Category = Category(id: int, name: string, image: string, slug: string)

  /** A catalog product as the API returns it; `price` is in cents. */
  datatype Product = Product(
    id: int,
    title: string,
    slug: string,
    price: int,
    description: string,
    category: Category,
    images: seq<string>)

  /**
   * One cart line: the product snapshot taken when the product was first
   * added, extended with a quantity (the source's `CartItem extends Product`).
   */
  datatype CartItem = CartItem(product: Product, quantity: int)
  {
    function Id(): int { product.id }
  }

  /** The four values of `ProductFilter.sortBy`. */
  datatype SortBy = PriceAsc | PriceDesc | NameAsc | NameDesc
  {
    /** The string literal the source uses for this value. */
    function Key(): string
    {
      match this
      case PriceAsc => "price-asc"
      case PriceDesc => "price-desc"
      case NameAsc => "name-asc"
      case NameDesc => "name-desc"
    }
  }

  /** `priceRange`, in cents; `max == None` is the unbounded `Infinity`. */
  datatype PriceRange = PriceRange(min: int, max: Option<int>)

  datatype ProductFilter = ProductFilter(
    search: Option<string>,
    categoryId: Option<int>,
    priceRange: Option<PriceRange>,
    sortBy: Option<SortBy>)
}
