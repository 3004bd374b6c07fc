/** Rows of the commerce tables, with the columns the protocols read or write. */
module Records {
  import opened Base
  import opened Money

  /** The empty string where the source expects an identifier. */
  const NO_ID: Id := 0

  datatype ShippingAddress = ShippingAddress(
    recipient: string, line1: string, line2: Option<string>, city: string,
    region: Option<string>, postalCode: Option<string>, country: string)

  datatype CartStatus = CartActive | CartCheckedOut | CartAbandoned | CartStale

  datatype CartItem = CartItem(
    id: Id, listing: Id, sku: Id, quantity: Int64, price: Int64, currency: string)

  /** items is the list loadCartItems returns: ordered by (listing, sku). */
  datatype Cart = Cart(
    store: Id, market: string, customer: Option<Id>, status: CartStatus, items: seq<CartItem>)

  datatype Line = Line(listing: Id, sku: Id, quantity: Int64, price: Int64, currency: string)

  /** The canonical finalize input. JSON and SHA-256 are taken as injective, so the
      fingerprint is the canonical input itself. */
  datatype Fingerprint = Fingerprint(
    session: Id, cart: Id, customer: Option<Id>, address: ShippingAddress, email: string, lines: seq<Line>)

  datatype SessionStatus = SessionOpen | SessionFinalized | SessionExpired

  datatype Session = Session(
    store: Id, cart: Id, customer: Option<Id>, status: SessionStatus, expiresAt: Time,
    address: Option<ShippingAddress>, email: Option<string>, fingerprint: Option<Fingerprint>, digestLength: nat)

  datatype FinalizeRequest = FinalizeRequest(session: Id, address: ShippingAddress, email: string)

  datatype OrderStatus =
    | Pending | Confirmed | Processing | ReadyForShipping
    | Shipped | OutForDelivery | Delivered | Cancelled | Returned

  datatype Authority = Checkout | Customer | Seller | Scheduler | Admin | System

  datatype OrderItem = OrderItem(
    listing: Id, product: Id, variant: Id, sku: Id, offer: Option<Id>, supplier: Option<Id>,
    location: Id, reservation: Id, title: string, skuCode: string, price: Int64, currency: string,
    quantity: Int64, lineTotal: Int64, cost: Option<Int64>, costCurrency: Option<string>)

  datatype Order = Order(
    number: nat, store: Id, market: string, customer: Option<Id>, session: Id, status: OrderStatus,
    currency: string, digestLength: nat, subtotal: Int64, total: Int64, deadline: Time,
    reason: Option<string>, version: nat, createdAt: Time, updatedAt: Time,
    items: seq<OrderItem>, address: ShippingAddress)

  datatype TimelineRow = TimelineRow(from: Option<OrderStatus>, to: OrderStatus, actor: Authority, at: Time)

  datatype EventKind = OrderCreated | OrderStatusChanged

  datatype OrderEvent = OrderEvent(kind: EventKind, version: nat, status: OrderStatus, at: Time)

  /** initial records the quantity the row was created with; no statement changes it. */
  datatype Snapshot = Snapshot(
    location: Id, sku: Id, initial: int, onHand: int, reserved: int, version: nat)

  datatype ReservationStatus = Held | Consumed | Released | Expired

  datatype Reservation = Reservation(
    snapshot: Id, quantity: int, status: ReservationStatus, expiresAt: Option<Time>)

  /** AdjustInventory writes whatever movement type its caller names. */
  datatype MovementKind =
    | ReservationHeld | ReservationReleased | ReservationExpired | ReservationConsumed
    | CancellationRestock | Adjusted(movementType: string)

  datatype Movement = Movement(kind: MovementKind, delta: int, onHand: int, reserved: int)

  // ---- Catalogue rows read by checkout and by the public storefront.

  datatype Price = Price(amount: Int64, currency: string)

  datatype Store = Store(market: string, active: bool)
  datatype Listing = Listing(
    store: Id, product: Id, offer: Option<Id>, market: string, active: bool, createdAt: Time, price: Option<Price>)
  datatype Product = Product(slug: string, name: Option<string>, active: bool)
  datatype Variant = Variant(product: Id, active: bool)
  datatype Sku = Sku(variant: Id, code: string, active: bool)
  datatype Offer = Offer(
    supplier: Id, supplierProduct: Id, market: string, active: bool, price: Option<Price>, available: Option<bool>)
  datatype SupplierProduct = SupplierProduct(supplier: Id, product: Id)
  datatype Location = Location(store: Option<Id>, supplier: Option<Id>, market: string, active: bool)
  datatype Category = Category(parent: Option<Id>, slug: string, active: bool)

  datatype Catalog = Catalog(
    stores: map<Id, Store>,
    markets: map<string, string>,
    listings: map<Id, Listing>,
    products: map<Id, Product>,
    variants: map<Id, Variant>,
    skus: map<Id, Sku>,
    offers: map<Id, Offer>,
    supplierProducts: map<Id, SupplierProduct>,
    locations: map<Id, Location>,
    categories: map<Id, Category>,
    productCategories: set<(Id, Id)>,
    categoryNames: map<(Id, string), string>)
}
