/**
 * The product detail screen (src/screens/ProductDetailScreen.tsx): a quantity
 * stepper and an image gallery, each an integer state field changed by guarded
 * handlers, and the "Add to Cart" action.
 *
 * The handlers are first given as transitions on a `DetailState` value, so
 * that runs of events can be reasoned about; the screen class then updates its
 * two fields exactly as those transitions say.
 */
module ProductDetail {
  import opened Types
  import opened Cart

  /** What a press of a control does. */
  datatype Event =
    | Increase                      // increaseQuantity
    | Decrease                      // decreaseQuantity
    | Next                          // nextImage
    | Prev                          // prevImage
    | SelectThumbnail(index: int)   // the thumbnail at `index` is pressed

  /** The screen's two `useState` fields. */
  datatype DetailState = DetailState(imageIndex: int, quantity: int)

  /** The screen's initial state: the first image, quantity 1. */
  function Initial(): (r: DetailState)
    ensures forall product: Option<Product> :: InBounds(product, r)
  {
    DetailState(0, 1)
  }

  /** `product.images.length`, or 0 while no product is loaded. */
  function ImageCount(product: Option<Product>): nat
  {
    if product.Some? then |product.value.images| else 0
  }

  /** The thumbnail strip is rendered only for a loaded product with more than one image. */
  predicate ThumbnailShown(product: Option<Product>, index: int)
  {
    product.Some? && |product.value.images| > 1 && 0 <= index < |product.value.images|
  }

  /** An event the screen can raise: a thumbnail press only for a rendered thumbnail. */
  predicate Offered(product: Option<Product>, e: Event)
  {
    e.SelectThumbnail? ==> ThumbnailShown(product, e.index)
  }

  /** The effect of one handler. */
  function Step(product: Option<Product>, s: DetailState, e: Event): (r: DetailState)
    requires Offered(product, e)
    ensures e.Increase? || e.Decrease? ==> r.imageIndex == s.imageIndex
    ensures !(e.Increase? || e.Decrease?) ==> r.quantity == s.quantity
    ensures e.Increase? ==> r.quantity > s.quantity
    ensures e.Decrease? ==> r.quantity <= s.quantity || r.quantity == 1
  {
    match e
    case Increase => s.(quantity := s.quantity + 1)
    case Decrease => s.(quantity := if s.quantity > 1 then s.quantity - 1 else 1)
    case Next =>
      if product.Some? && s.imageIndex < ImageCount(product) - 1 then s.(imageIndex := s.imageIndex + 1) else s
    case Prev => if s.imageIndex > 0 then s.(imageIndex := s.imageIndex - 1) else s
    case SelectThumbnail(i) => s.(imageIndex := i)
  }

  /** The state after a sequence of events, in order. */
  function Run(product: Option<Product>, s: DetailState, events: seq<Event>): (r: DetailState)
    requires forall i | 0 <= i < |events| :: Offered(product, events[i])
    ensures (forall i | 0 <= i < |events| :: events[i].Increase? || events[i].Decrease?) ==> r.imageIndex == s.imageIndex
    ensures (forall i | 0 <= i < |events| :: !(events[i].Increase? || events[i].Decrease?)) ==> r.quantity == s.quantity
    decreases |events|
  {
    if events == [] then s else Run(product, Step(product, s, events[0]), events[1..])
  }

  /**
   * The screen's bounds: the quantity is at least 1, and the image index is
   * 0 or a position of the gallery.
   */
  predicate InBounds(product: Option<Product>, s: DetailState)
  {
    s.quantity >= 1 && 0 <= s.imageIndex && (s.imageIndex == 0 || s.imageIndex < ImageCount(product))
  }

  lemma InitialInBounds(product: Option<Product>)
    ensures InBounds(product, Initial())
    ensures Initial().imageIndex == 0 && Initial().quantity == 1
  {
  }

  /** Every handler keeps the bounds. */
  lemma StepKeepsBounds(product: Option<Product>, s: DetailState, e: Event)
    requires Offered(product, e) && InBounds(product, s)
    ensures InBounds(product, Step(product, s, e))
  {
  }

  /** Any run of events from a state in bounds stays in bounds. */
  lemma {:induction false} RunKeepsBounds(product: Option<Product>, s: DetailState, events: seq<Event>)
    requires forall i | 0 <= i < |events| :: Offered(product, events[i])
    requires InBounds(product, s)
    ensures InBounds(product, Run(product, s, events))
    decreases |events|
  {
    if events != [] {
      StepKeepsBounds(product, s, events[0]);
      RunKeepsBounds(product, Step(product, s, events[0]), events[1..]);
    }
  }

  /** With a non-empty gallery, every reachable image index is a valid position. */
  lemma ReachableIndexInGallery(product: Option<Product>, events: seq<Event>)
    requires forall i | 0 <= i < |events| :: Offered(product, events[i])
    requires ImageCount(product) >= 1
    ensures var s := Run(product, Initial(), events);
      0 <= s.imageIndex < ImageCount(product) && s.quantity >= 1
  {
    RunKeepsBounds(product, Initial(), events);
  }

  /** Decrease undoes Increase. */
  lemma DecreaseUndoesIncrease(product: Option<Product>, s: DetailState)
    requires s.quantity >= 1
    ensures Step(product, Step(product, s, Increase), Decrease) == s
  {
  }

  /** At quantity 1, Decrease changes nothing; above 1 it lowers the quantity by one. */
  lemma DecreaseClamps(product: Option<Product>, s: DetailState)
    requires s.quantity >= 1
    ensures var t := Step(product, s, Decrease);
      t.imageIndex == s.imageIndex && t.quantity == (if s.quantity == 1 then 1 else s.quantity - 1)
  {
  }

  /** Prev undoes a Next that moved; Next undoes a Prev that moved. */
  lemma NextPrevInverse(product: Option<Product>, s: DetailState)
    requires InBounds(product, s)
    ensures Step(product, s, Next) != s ==> Step(product, Step(product, s, Next), Prev) == s
    ensures Step(product, s, Prev) != s && product.Some? ==> Step(product, Step(product, s, Prev), Next) == s
  {
  }

  /** Next moves exactly when a later image exists, Prev exactly when an earlier one does. */
  lemma NavigationMovesIff(product: Option<Product>, s: DetailState)
    requires InBounds(product, s)
    ensures Step(product, s, Next) != s <==> product.Some? && s.imageIndex < ImageCount(product) - 1
    ensures Step(product, s, Prev) != s <==> s.imageIndex > 0
  {
  }

  const Placeholder: string := "https://placehold.co/600x400"

  /** The main image's URI: the current gallery entry, or the placeholder when it is missing or empty. */
  function DisplayedImage(product: Product, index: int): (uri: string)
    ensures uri == Placeholder || uri in product.images
    ensures uri != ""
    ensures 0 <= index < |product.images| && product.images[index] != "" ==> uri == product.images[index]
    ensures !(0 <= index < |product.images| && product.images[index] != "") ==> uri == Placeholder
  {
    if 0 <= index < |product.images| && product.images[index] != "" then product.images[index] else Placeholder
  }

  /** The screen, for the product its query loaded (`None` while loading or after an error). */
  class ProductDetailScreen {
    const product: Option<Product>
    var currentImageIndex: int
    var quantity: int

    function State(): DetailState
      reads this
    {
      DetailState(currentImageIndex, quantity)
    }

    ghost predicate Valid()
      reads this
    {
      InBounds(product, State())
    }

    constructor (product: Option<Product>)
      ensures this.product == product
      ensures State() == Initial()
      ensures Valid()
    {
      this.product := product;
      currentImageIndex := 0;
      quantity := 1;
    }

    method IncreaseQuantity()
      requires Valid()
      modifies this
      ensures Valid()
      ensures State() == Step(product, old(State()), Increase)
      ensures quantity == old(quantity) + 1
    {
      quantity := quantity + 1;
    }

    method DecreaseQuantity()
      requires Valid()
      modifies this
      ensures Valid()
      ensures State() == Step(product, old(State()), Decrease)
      ensures quantity >= 1
    {
      quantity := if quantity > 1 then quantity - 1 else 1;
    }

    method NextImage()
      requires Valid()
      modifies this
      ensures Valid()
      ensures State() == Step(product, old(State()), Next)
    {
      if product.Some? && currentImageIndex < |product.value.images| - 1 {
        currentImageIndex := currentImageIndex + 1;
      }
    }

    method PrevImage()
      requires Valid()
      modifies this
      ensures Valid()
      ensures State() == Step(product, old(State()), Prev)
    {
      if currentImageIndex > 0 {
        currentImageIndex := currentImageIndex - 1;
      }
    }

    /** A press on the rendered thumbnail at `index` makes it the current image. */
    method SelectThumbnail(index: int)
      requires Valid() && ThumbnailShown(product, index)
      modifies this
      ensures Valid()
      ensures State() == Step(product, old(State()), Event.SelectThumbnail(index))
    {
      currentImageIndex := index;
    }

    /**
     * `handleAddToCart`: with a loaded product, add it with the current
     * quantity (at least 1) and ask for the cart screen; otherwise do nothing.
     */
    method HandleAddToCart(cart: CartProvider) returns (navigateToCart: bool)
      requires Valid() && cart.Valid()
      modifies cart
      ensures cart.Valid()
      ensures navigateToCart <==> product.Some?
      ensures product.Some? ==> cart.cartItems == AddItem(old(cart.cartItems), product.value, quantity)
      ensures product.Some? ==> cart.storage == Save(old(cart.storage), cart.cartItems)
      ensures product.None? ==> cart.cartItems == old(cart.cartItems) && cart.storage == old(cart.storage)
      ensures WellFormed(old(cart.cartItems)) ==> WellFormed(cart.cartItems)
    {
      navigateToCart := false;
      if product.Some? {
        cart.AddToCart(product.value, quantity);
        navigateToCart := true;
      }
    }
  }
}
