/** The viewsets' actions as functions of the database: the two ownership
    filters (get_queryset), the lookups built on them, and the effect of every
    create, update and destroy. Each action either fails with an error and
    leaves the database as it was, or returns the new database.

    The order of the checks is the framework's: an update or destroy first
    looks the row up among those the requester can see (NotFound), then the
    serializer validates the payload (Invalid); a create validates first and
    only then runs perform_create (PermissionDenied). */
module Views {
  import opened Outcomes
  import opened Models

  // ---------------------------------------------------------------------
  // Ownership scoping
  // ---------------------------------------------------------------------

  /** CartViewSet.get_queryset: the requester's carts, which are exactly the
      carts that deleting the requester would take with them. */
  function ListCarts(db: Db, requester: UserId): (r: map<Id, Cart>)
    ensures r.Keys == CartsOfUser(db, requester)
    ensures forall c :: c in r ==> c in db.carts.rows && r[c] == db.carts.rows[c] && r[c].user == requester
  {
    map c | c in db.carts.rows && db.carts.rows[c].user == requester :: db.carts.rows[c]
  }

  /** CartItemViewSet.get_queryset: the items whose cart belongs to the
      requester (a join through CartItem.cart). An item is listed exactly when
      its cart is in the requester's cart list. */
  function ListCartItems(db: Db, requester: UserId): (r: map<Id, CartItem>)
    ensures forall i :: i in r <==> i in db.items.rows && db.items.rows[i].cart in ListCarts(db, requester)
    ensures forall i :: i in r ==> r[i] == db.items.rows[i]
    ensures r.Keys == ItemsOfCarts(db, CartsOfUser(db, requester))
  {
    map i | i in db.items.rows && db.items.rows[i].cart in db.carts.rows
              && db.carts.rows[db.items.rows[i].cart].user == requester
          :: db.items.rows[i]
  }

  /** Retrieve: found exactly when the cart is the requester's own. */
  function RetrieveCart(db: Db, requester: UserId, id: Id): (r: Outcome<Cart>)
    ensures r.Ok? <==> id in db.carts.rows && db.carts.rows[id].user == requester
    ensures r.Ok? ==> r.value == db.carts.rows[id]
    ensures r.Err? ==> r.error == NotFound
  {
    var visible := ListCarts(db, requester);
    if id in visible then Ok(visible[id]) else Err(NotFound)
  }

  /** Retrieve: found exactly when the item lies in one of the requester's
      carts. */
  function RetrieveCartItem(db: Db, requester: UserId, id: Id): (r: Outcome<CartItem>)
    ensures r.Ok? <==>
      id in db.items.rows && db.items.rows[id].cart in db.carts.rows
      && db.carts.rows[db.items.rows[id].cart].user == requester
    ensures r.Ok? ==> r.value == db.items.rows[id]
    ensures r.Err? ==> r.error == NotFound
  {
    var visible := ListCartItems(db, requester);
    if id in visible then Ok(visible[id]) else Err(NotFound)
  }

  // ---------------------------------------------------------------------
  // What the serializers accept
  // ---------------------------------------------------------------------

  /** ProductSerializer: the field validators, and `type` names an existing
      product type. */
  predicate ProductAcceptable(db: Db, p: Product) {
    ProductValid(p) && p.productType in db.types.rows
  }

  /** CartSerializer: `user` names an existing user. The field is required
      even though perform_create overwrites it. */
  predicate CartAcceptable(db: Db, c: Cart) {
    c.user in db.users.rows
  }

  /** CartItemSerializer: `ammount` is not negative, and `product` and `cart`
      name existing rows. The cart field's choices are all carts, not only the
      requester's. */
  predicate CartItemAcceptable(db: Db, i: CartItem) {
    CartItemValid(i) && i.product in db.products.rows && i.cart in db.carts.rows
  }

  // ---------------------------------------------------------------------
  // Product types and products: unscoped
  // ---------------------------------------------------------------------

  /** Gated by the name: 1 to 128 characters, none of them NUL. The new row
      lands under the table's next key. */
  function CreateProductType(db: Db, t: ProductType): (r: Outcome<Db>)
    ensures r.Ok? <==> 0 < |t.name| <= 128 && '\0' !in t.name
    ensures r.Err? ==> r.error == Invalid
    ensures r.Ok? ==> r.value.types.rows == db.types.rows[db.types.next := t]
    ensures r.Ok? ==> (r.value.users == db.users && r.value.products == db.products
      && r.value.carts == db.carts && r.value.items == db.items)
    ensures r.Ok? && WellFormed(db) ==> WellFormed(r.value) && |r.value.types.rows| == |db.types.rows| + 1
  {
    if !ProductTypeValid(t) then Err(Invalid)
    else Ok(db.(types := Insert(db.types, t)))
  }

  function UpdateProductType(db: Db, id: Id, t: ProductType): (r: Outcome<Db>)
    ensures r == Err(NotFound) <==> id !in db.types.rows
    ensures r.Ok? <==> id in db.types.rows && 0 < |t.name| <= 128 && '\0' !in t.name
    ensures r.Err? ==> r.error == NotFound || r.error == Invalid
    ensures r.Ok? ==> r.value.types.rows == db.types.rows[id := t] && r.value.types.next == db.types.next
    ensures r.Ok? ==> (r.value.types.rows.Keys == db.types.rows.Keys && r.value.users == db.users
      && r.value.products == db.products && r.value.carts == db.carts && r.value.items == db.items)
    ensures r.Ok? && WellFormed(db) ==> WellFormed(r.value)
  {
    if id !in db.types.rows then Err(NotFound)
    else if !ProductTypeValid(t) then Err(Invalid)
    else Ok(db.(types := Replace(db.types, id, t)))
  }

  /** Found exactly when the type exists; then the cascade of
      DeleteProductType. */
  function DestroyProductType(db: Db, id: Id): (r: Outcome<Db>)
    ensures r.Ok? <==> id in db.types.rows
    ensures r.Err? ==> r.error == NotFound
    ensures r.Ok? ==> r.value == DeleteProductType(db, id)
    ensures r.Ok? ==> id !in r.value.types.rows && SubDb(r.value, db)
    ensures r.Ok? && WellFormed(db) ==> WellFormed(r.value)
  {
    if id !in db.types.rows then Err(NotFound) else Ok(DeleteProductType(db, id))
  }

  /** Gated by: a name of 1 to 128 characters, a description of at most 4096
      (possibly empty), neither holding a NUL, a price and a stock that are
      not negative, and an existing product type. */
  function CreateProduct(db: Db, p: Product): (r: Outcome<Db>)
    ensures r.Ok? <==>
      && 0 < |p.name| <= 128 && '\0' !in p.name
      && |p.description| <= 4096 && '\0' !in p.description
      && p.price >= 0 && p.ammount >= 0
      && p.productType in db.types.rows
    ensures r.Err? ==> r.error == Invalid
    ensures r.Ok? ==> r.value.products.rows == db.products.rows[db.products.next := p]
    ensures r.Ok? ==> (r.value.users == db.users && r.value.types == db.types
      && r.value.carts == db.carts && r.value.items == db.items)
    ensures r.Ok? && WellFormed(db) ==> WellFormed(r.value) && |r.value.products.rows| == |db.products.rows| + 1
  {
    if !ProductAcceptable(db, p) then Err(Invalid)
    else Ok(db.(products := Insert(db.products, p)))
  }

  function UpdateProduct(db: Db, id: Id, p: Product): (r: Outcome<Db>)
    ensures r == Err(NotFound) <==> id !in db.products.rows
    ensures r.Ok? <==> id in db.products.rows && CreateProduct(db, p).Ok?
    ensures r.Err? ==> r.error == NotFound || r.error == Invalid
    ensures r.Ok? ==> r.value.products.rows == db.products.rows[id := p] && r.value.products.next == db.products.next
    ensures r.Ok? ==> (r.value.products.rows.Keys == db.products.rows.Keys && r.value.users == db.users
      && r.value.types == db.types && r.value.carts == db.carts && r.value.items == db.items)
    ensures r.Ok? && WellFormed(db) ==> WellFormed(r.value)
  {
    if id !in db.products.rows then Err(NotFound)
    else if !ProductAcceptable(db, p) then Err(Invalid)
    else Ok(db.(products := Replace(db.products, id, p)))
  }

  function DestroyProduct(db: Db, id: Id): (r: Outcome<Db>)
    ensures r.Ok? <==> id in db.products.rows
    ensures r.Err? ==> r.error == NotFound
    ensures r.Ok? ==> r.value == DeleteProduct(db, id)
    ensures r.Ok? ==> id !in r.value.products.rows && SubDb(r.value, db)
    ensures r.Ok? && WellFormed(db) ==> WellFormed(r.value)
  {
    if id !in db.products.rows then Err(NotFound) else Ok(DeleteProduct(db, id))
  }

  // ---------------------------------------------------------------------
  // Carts and cart items: scoped to the requester
  // ---------------------------------------------------------------------

  /** CartViewSet.perform_create: whatever user the payload names, the one
      new cart belongs to the requester, who may already own carts. */
  function CreateCart(db: Db, requester: UserId, payload: Cart): (r: Outcome<Db>)
    ensures r.Ok? <==> payload.user in db.users.rows
    ensures r.Err? ==> r.error == Invalid
    ensures r.Ok? ==> r.value.carts.rows == db.carts.rows[db.carts.next := Cart(requester)]
    ensures r.Ok? ==> ListCarts(r.value, requester) == ListCarts(db, requester)[db.carts.next := Cart(requester)]
    ensures r.Ok? ==> (r.value.users == db.users && r.value.types == db.types
      && r.value.products == db.products && r.value.items == db.items)
    ensures r.Ok? && WellFormed(db) && requester in db.users.rows ==>
      WellFormed(r.value) && |ListCarts(r.value, requester)| == |ListCarts(db, requester)| + 1
  {
    if !CartAcceptable(db, payload) then Err(Invalid)
    else
      var r := db.(carts := Insert(db.carts, Cart(requester)));
      assert ListCarts(r, requester) == ListCarts(db, requester)[db.carts.next := Cart(requester)];
      Ok(r)
  }

  /** There is no update hook: once the cart is found among the requester's,
      the payload's user is stored as given, so the cart now belongs to
      whoever the payload names. */
  function UpdateCart(db: Db, requester: UserId, id: Id, payload: Cart): (r: Outcome<Db>)
    ensures r == Err(NotFound) <==> id !in ListCarts(db, requester)
    ensures r.Ok? <==> id in ListCarts(db, requester) && payload.user in db.users.rows
    ensures r.Err? ==> r.error == NotFound || r.error == Invalid
    ensures r.Ok? ==> r.value.carts.rows == db.carts.rows[id := payload] && r.value.carts.next == db.carts.next
    ensures r.Ok? ==> id in ListCarts(r.value, payload.user)
    ensures r.Ok? ==> (r.value.carts.rows.Keys == db.carts.rows.Keys && r.value.users == db.users
      && r.value.types == db.types && r.value.products == db.products && r.value.items == db.items)
    ensures r.Ok? && WellFormed(db) ==> WellFormed(r.value)
  {
    if id !in ListCarts(db, requester) then Err(NotFound)
    else if !CartAcceptable(db, payload) then Err(Invalid)
    else Ok(db.(carts := Replace(db.carts, id, payload)))
  }

  /** Found exactly among the requester's carts; then the cascade of
      DeleteCart. */
  function DestroyCart(db: Db, requester: UserId, id: Id): (r: Outcome<Db>)
    ensures r.Ok? <==> id in ListCarts(db, requester)
    ensures r.Err? ==> r.error == NotFound
    ensures r.Ok? ==> r.value == DeleteCart(db, id)
    ensures r.Ok? ==> id !in r.value.carts.rows && SubDb(r.value, db)
    ensures r.Ok? && WellFormed(db) ==> WellFormed(r.value)
  {
    if id !in ListCarts(db, requester) then Err(NotFound) else Ok(DeleteCart(db, id))
  }

  /** CartItemViewSet.perform_create: an invalid payload is refused as
      Invalid; a valid one aimed at a cart outside the requester's list as
      PermissionDenied. Otherwise exactly one line is added, as given: it is
      not merged with a line for the same product, and the product's stock is
      neither checked nor touched. */
  function CreateCartItem(db: Db, requester: UserId, item: CartItem): (r: Outcome<Db>)
    ensures r == Err(Invalid) <==>
      item.ammount < 0 || item.product !in db.products.rows || item.cart !in db.carts.rows
    ensures r == Err(PermissionDenied) <==>
      CartItemAcceptable(db, item) && item.cart !in ListCarts(db, requester)
    ensures r.Ok? <==> CartItemAcceptable(db, item) && item.cart in ListCarts(db, requester)
    ensures r.Ok? ==> r.value.items.rows == db.items.rows[db.items.next := item]
    ensures r.Ok? ==> ListCartItems(r.value, requester) == ListCartItems(db, requester)[db.items.next := item]
    ensures r.Ok? ==> (r.value.users == db.users && r.value.types == db.types
      && r.value.products == db.products && r.value.carts == db.carts)
    ensures r.Ok? && WellFormed(db) ==>
      WellFormed(r.value) && SubDb(db, r.value) && |r.value.items.rows| == |db.items.rows| + 1
  {
    if !CartItemAcceptable(db, item) then Err(Invalid)
    else if db.carts.rows[item.cart].user != requester then Err(PermissionDenied)
    else
      var r := db.(items := Insert(db.items, item));
      InsertedItemListed(db, requester, item);
      InsertedItemKeepsWellFormed(db, item);
      Ok(r)
  }

  /** An item added to one of the requester's carts joins their item list
      under the next key, and no other entry of the list changes. */
  lemma InsertedItemListed(db: Db, requester: UserId, item: CartItem)
    requires item.cart in ListCarts(db, requester)
    ensures ListCartItems(db.(items := Insert(db.items, item)), requester)
      == ListCartItems(db, requester)[db.items.next := item]
  {
    var r := db.(items := Insert(db.items, item));
    var after, before := ListCartItems(r, requester), ListCartItems(db, requester)[db.items.next := item];
    assert r.carts == db.carts;
    forall i | i in after
      ensures i in before && after[i] == before[i]
    {
    }
    forall i | i in before
      ensures i in after
    {
    }
  }

  lemma InsertedItemKeepsWellFormed(db: Db, item: CartItem)
    requires CartItemAcceptable(db, item)
    ensures var r := db.(items := Insert(db.items, item));
      WellFormed(db) ==> WellFormed(r) && SubDb(db, r) && |r.items.rows| == |db.items.rows| + 1
  {
  }

  /** There is no update hook: once the item is found among the requester's,
      the payload's cart is not checked for ownership, so the item may move
      into any user's cart. */
  function UpdateCartItem(db: Db, requester: UserId, id: Id, item: CartItem): (r: Outcome<Db>)
    ensures r == Err(NotFound) <==> id !in ListCartItems(db, requester)
    ensures r.Ok? <==> id in ListCartItems(db, requester) && CartItemAcceptable(db, item)
    ensures r.Err? ==> r.error == NotFound || r.error == Invalid
    ensures r.Ok? ==> r.value.items.rows == db.items.rows[id := item] && r.value.items.next == db.items.next
    ensures r.Ok? ==> item.cart in db.carts.rows && id in ListCartItems(r.value, db.carts.rows[item.cart].user)
    ensures r.Ok? ==> (r.value.items.rows.Keys == db.items.rows.Keys && r.value.users == db.users
      && r.value.types == db.types && r.value.products == db.products && r.value.carts == db.carts)
    ensures r.Ok? && WellFormed(db) ==> WellFormed(r.value)
  {
    if id !in ListCartItems(db, requester) then Err(NotFound)
    else if !CartItemAcceptable(db, item) then Err(Invalid)
    else Ok(db.(items := Replace(db.items, id, item)))
  }

  function DestroyCartItem(db: Db, requester: UserId, id: Id): (r: Outcome<Db>)
    ensures r.Ok? <==> id in ListCartItems(db, requester)
    ensures r.Err? ==> r.error == NotFound
    ensures r.Ok? ==> r.value == DeleteCartItem(db, id)
    ensures r.Ok? ==> r.value.items.rows.Keys == db.items.rows.Keys - {id} && SubDb(r.value, db)
    ensures r.Ok? && WellFormed(db) ==> WellFormed(r.value)
  {
    if id !in ListCartItems(db, requester) then Err(NotFound) else Ok(DeleteCartItem(db, id))
  }

  // =====================================================================
  // Properties relating several actions or several users
  // =====================================================================

  /** Two users never see a common cart or a common item. */
  lemma ListsDisjoint(db: Db, u: UserId, v: UserId)
    requires u != v
    ensures ListCarts(db, u).Keys !! ListCarts(db, v).Keys
    ensures ListCartItems(db, u).Keys !! ListCartItems(db, v).Keys
  {
  }

  /** Another user's cart is out of reach: retrieving, updating and
      destroying it all report NotFound (and so change nothing). */
  lemma ForeignCartNotFound(db: Db, requester: UserId, id: Id, payload: Cart)
    requires id in db.carts.rows && db.carts.rows[id].user != requester
    ensures RetrieveCart(db, requester, id) == Err(NotFound)
    ensures UpdateCart(db, requester, id, payload) == Err(NotFound)
    ensures DestroyCart(db, requester, id) == Err(NotFound)
  {
  }

  /** Likewise for an item in another user's cart. */
  lemma ForeignCartItemNotFound(db: Db, requester: UserId, id: Id, payload: CartItem)
    requires Integrity(db) && id in db.items.rows
    requires db.carts.rows[db.items.rows[id].cart].user != requester
    ensures RetrieveCartItem(db, requester, id) == Err(NotFound)
    ensures UpdateCartItem(db, requester, id, payload) == Err(NotFound)
    ensures DestroyCartItem(db, requester, id) == Err(NotFound)
  {
  }

  /** Creating a cart leaves every other user's cart list as it was. */
  lemma CreateCartLeavesOthersAlone(db: Db, requester: UserId, payload: Cart, other: UserId)
    requires KeysBelowNext(db.carts) && other != requester
    requires CreateCart(db, requester, payload).Ok?
    ensures ListCarts(CreateCart(db, requester, payload).value, other) == ListCarts(db, other)
  {
    var r := CreateCart(db, requester, payload).value;
    assert ListCarts(r, other).Keys == ListCarts(db, other).Keys;
  }

  /** Creating a cart item leaves every other user's item list as it was. */
  lemma CreateCartItemLeavesOthersAlone(db: Db, requester: UserId, item: CartItem, other: UserId)
    requires KeysBelowNext(db.items) && other != requester
    requires CreateCartItem(db, requester, item).Ok?
    ensures ListCartItems(CreateCartItem(db, requester, item).value, other) == ListCartItems(db, other)
  {
    var r := CreateCartItem(db, requester, item).value;
    assert ListCartItems(r, other).Keys == ListCartItems(db, other).Keys;
  }

  /** The ownership check exists only on create: a requester may hand one of
      their carts to another existing user by updating it, after which it
      leaves their list and joins that user's. */
  lemma UpdateCartReassignsOwner(db: Db, requester: UserId, id: Id, other: UserId)
    requires id in ListCarts(db, requester) && other in db.users.rows && other != requester
    ensures UpdateCart(db, requester, id, Cart(other)).Ok?
    ensures var r := UpdateCart(db, requester, id, Cart(other)).value;
      id !in ListCarts(r, requester) && id in ListCarts(r, other)
  {
  }

  /** Likewise an item of the requester's may be moved by an update into
      another user's cart, where create would have refused it. */
  lemma UpdateCartItemMovesToForeignCart(db: Db, requester: UserId, id: Id, item: CartItem)
    requires id in ListCartItems(db, requester)
    requires CartItemAcceptable(db, item) && db.carts.rows[item.cart].user != requester
    ensures CreateCartItem(db, requester, item) == Err(PermissionDenied)
    ensures UpdateCartItem(db, requester, id, item).Ok?
    ensures var r := UpdateCartItem(db, requester, id, item).value;
      id !in ListCartItems(r, requester) && id in ListCartItems(r, db.carts.rows[item.cart].user)
  {
  }
}
