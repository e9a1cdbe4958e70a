/** The database the viewsets act on, as an object whose tables the actions
    update in place. Each action is proved against its function in Views: on
    success the tables become that function's result, on failure they are left
    as they were, and the object invariant (foreign keys resolve, stored rows
    pass their validators, keys stay below the counters) is kept. */
module ViewSets {
  import opened Outcomes
  import opened Models
  import Views

  class Store {
    var users: Table<User>
    var types: Table<ProductType>
    var products: Table<Product>
    var carts: Table<Cart>
    var items: Table<CartItem>

    /** The tables as one value. */
    function Snapshot(): Db
      reads this
    {
      Db(users, types, products, carts, items)
    }

    ghost predicate Valid()
      reads this
    {
      WellFormed(Snapshot())
    }

    constructor ()
      ensures Valid()
      ensures users.rows == map[] && types.rows == map[] && products.rows == map[]
      ensures carts.rows == map[] && items.rows == map[]
    {
      users := Table(map[], 0);
      types := Table(map[], 0);
      products := Table(map[], 0);
      carts := Table(map[], 0);
      items := Table(map[], 0);
    }

    /** Stands in for the framework's user creation, which lies outside the
        viewsets: the new user gets the next key. */
    method AddUser(isStaff: bool) returns (id: UserId)
      requires Valid()
      modifies this
      ensures Valid()
      ensures id == old(users.next) && id !in old(users.rows)
      ensures Snapshot() == old(Snapshot()).(users := Insert(old(users), User(isStaff)))
    {
      id := users.next;
      users := Insert(users, User(isStaff));
    }

    /** Deleting a user cascades to their carts and those carts' items. */
    method DeleteUser(u: UserId)
      requires Valid()
      modifies this
      ensures Valid()
      ensures Snapshot() == Models.DeleteUser(old(Snapshot()), u)
    {
      var d := Models.DeleteUser(Snapshot(), u);
      users, carts, items := d.users, d.carts, d.items;
    }

    // -------------------------------------------------------------------
    // ProductTypeViewSet
    // -------------------------------------------------------------------

    method CreateProductType(t: ProductType) returns (r: Outcome<Id>)
      requires Valid()
      modifies this
      ensures Valid()
      ensures r.Ok? ==> r.value == old(types.next)
      ensures Views.CreateProductType(old(Snapshot()), t) == if r.Ok? then Ok(Snapshot()) else Err(r.error)
      ensures r.Err? ==> Snapshot() == old(Snapshot())
    {
      if !ProductTypeValid(t) {
        return Err(Invalid);
      }
      r := Ok(types.next);
      types := Insert(types, t);
    }

    method UpdateProductType(id: Id, t: ProductType) returns (r: Outcome<Id>)
      requires Valid()
      modifies this
      ensures Valid()
      ensures r.Ok? ==> r.value == id
      ensures Views.UpdateProductType(old(Snapshot()), id, t) == if r.Ok? then Ok(Snapshot()) else Err(r.error)
      ensures r.Err? ==> Snapshot() == old(Snapshot())
    {
      if id !in types.rows {
        return Err(NotFound);
      }
      if !ProductTypeValid(t) {
        return Err(Invalid);
      }
      r := Ok(id);
      types := Replace(types, id, t);
    }

    method DestroyProductType(id: Id) returns (r: Outcome<Id>)
      requires Valid()
      modifies this
      ensures Valid()
      ensures r.Ok? ==> r.value == id
      ensures Views.DestroyProductType(old(Snapshot()), id) == if r.Ok? then Ok(Snapshot()) else Err(r.error)
      ensures r.Err? ==> Snapshot() == old(Snapshot())
    {
      if id !in types.rows {
        return Err(NotFound);
      }
      var d := DeleteProductType(Snapshot(), id);
      types, products, items := d.types, d.products, d.items;
      r := Ok(id);
    }

    // -------------------------------------------------------------------
    // ProductViewSet
    // -------------------------------------------------------------------

    method CreateProduct(p: Product) returns (r: Outcome<Id>)
      requires Valid()
      modifies this
      ensures Valid()
      ensures r.Ok? ==> r.value == old(products.next)
      ensures Views.CreateProduct(old(Snapshot()), p) == if r.Ok? then Ok(Snapshot()) else Err(r.error)
      ensures r.Err? ==> Snapshot() == old(Snapshot())
    {
      if !Views.ProductAcceptable(Snapshot(), p) {
        return Err(Invalid);
      }
      r := Ok(products.next);
      products := Insert(products, p);
    }

    method UpdateProduct(id: Id, p: Product) returns (r: Outcome<Id>)
      requires Valid()
      modifies this
      ensures Valid()
      ensures r.Ok? ==> r.value == id
      ensures Views.UpdateProduct(old(Snapshot()), id, p) == if r.Ok? then Ok(Snapshot()) else Err(r.error)
      ensures r.Err? ==> Snapshot() == old(Snapshot())
    {
      if id !in products.rows {
        return Err(NotFound);
      }
      if !Views.ProductAcceptable(Snapshot(), p) {
        return Err(Invalid);
      }
      r := Ok(id);
      products := Replace(products, id, p);
    }

    method DestroyProduct(id: Id) returns (r: Outcome<Id>)
      requires Valid()
      modifies this
      ensures Valid()
      ensures r.Ok? ==> r.value == id
      ensures Views.DestroyProduct(old(Snapshot()), id) == if r.Ok? then Ok(Snapshot()) else Err(r.error)
      ensures r.Err? ==> Snapshot() == old(Snapshot())
    {
      if id !in products.rows {
        return Err(NotFound);
      }
      var d := DeleteProduct(Snapshot(), id);
      products, items := d.products, d.items;
      r := Ok(id);
    }

    // -------------------------------------------------------------------
    // CartViewSet
    // -------------------------------------------------------------------

    /** perform_create: the payload's user must exist, but the stored owner is
        the requester. */
    method CreateCart(requester: UserId, payload: Cart) returns (r: Outcome<Id>)
      requires Valid() && requester in users.rows
      modifies this
      ensures Valid()
      ensures r.Ok? ==> r.value == old(carts.next) && r.value in carts.rows && carts.rows[r.value] == Cart(requester)
      ensures Views.CreateCart(old(Snapshot()), requester, payload) == if r.Ok? then Ok(Snapshot()) else Err(r.error)
      ensures r.Err? ==> Snapshot() == old(Snapshot())
    {
      if !Views.CartAcceptable(Snapshot(), payload) {
        return Err(Invalid);
      }
      r := Ok(carts.next);
      carts := Insert(carts, Cart(requester));
    }

    /** No update hook: the payload's user is stored without an ownership
        check, once the cart is found among the requester's. */
    method UpdateCart(requester: UserId, id: Id, payload: Cart) returns (r: Outcome<Id>)
      requires Valid() && requester in users.rows
      modifies this
      ensures Valid()
      ensures r.Ok? ==> r.value == id
      ensures Views.UpdateCart(old(Snapshot()), requester, id, payload) == if r.Ok? then Ok(Snapshot()) else Err(r.error)
      ensures r.Err? ==> Snapshot() == old(Snapshot())
    {
      if id !in Views.ListCarts(Snapshot(), requester) {
        return Err(NotFound);
      }
      if !Views.CartAcceptable(Snapshot(), payload) {
        return Err(Invalid);
      }
      r := Ok(id);
      carts := Replace(carts, id, payload);
    }

    method DestroyCart(requester: UserId, id: Id) returns (r: Outcome<Id>)
      requires Valid() && requester in users.rows
      modifies this
      ensures Valid()
      ensures r.Ok? ==> r.value == id
      ensures Views.DestroyCart(old(Snapshot()), requester, id) == if r.Ok? then Ok(Snapshot()) else Err(r.error)
      ensures r.Err? ==> Snapshot() == old(Snapshot())
    {
      if id !in Views.ListCarts(Snapshot(), requester) {
        return Err(NotFound);
      }
      var d := DeleteCart(Snapshot(), id);
      carts, items := d.carts, d.items;
      r := Ok(id);
    }

    // -------------------------------------------------------------------
    // CartItemViewSet
    // -------------------------------------------------------------------

    /** perform_create: the serializer validates first; then an item aimed at
        another user's cart is refused before anything is stored. */
    method CreateCartItem(requester: UserId, item: CartItem) returns (r: Outcome<Id>)
      requires Valid() && requester in users.rows
      modifies this
      ensures Valid()
      ensures r.Ok? ==> r.value == old(items.next) && r.value in items.rows && items.rows[r.value] == item
      ensures Views.CreateCartItem(old(Snapshot()), requester, item) == if r.Ok? then Ok(Snapshot()) else Err(r.error)
      ensures r.Err? ==> Snapshot() == old(Snapshot())
    {
      if !Views.CartItemAcceptable(Snapshot(), item) {
        return Err(Invalid);
      }
      if item.cart !in Views.ListCarts(Snapshot(), requester) {
        return Err(PermissionDenied);
      }
      r := Ok(items.next);
      items := Insert(items, item);
    }

    method UpdateCartItem(requester: UserId, id: Id, item: CartItem) returns (r: Outcome<Id>)
      requires Valid() && requester in users.rows
      modifies this
      ensures Valid()
      ensures r.Ok? ==> r.value == id
      ensures Views.UpdateCartItem(old(Snapshot()), requester, id, item) == if r.Ok? then Ok(Snapshot()) else Err(r.error)
      ensures r.Err? ==> Snapshot() == old(Snapshot())
    {
      if id !in Views.ListCartItems(Snapshot(), requester) {
        return Err(NotFound);
      }
      if !Views.CartItemAcceptable(Snapshot(), item) {
        return Err(Invalid);
      }
      r := Ok(id);
      items := Replace(items, id, item);
    }

    method DestroyCartItem(requester: UserId, id: Id) returns (r: Outcome<Id>)
      requires Valid() && requester in users.rows
      modifies this
      ensures Valid()
      ensures r.Ok? ==> r.value == id
      ensures Views.DestroyCartItem(old(Snapshot()), requester, id) == if r.Ok? then Ok(Snapshot()) else Err(r.error)
      ensures r.Err? ==> Snapshot() == old(Snapshot())
    {
      if id !in Views.ListCartItems(Snapshot(), requester) {
        return Err(NotFound);
      }
      items := DeleteCartItem(Snapshot(), id).items;
      r := Ok(id);
    }
  }
}
