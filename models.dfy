/** The store's entities (product types, products, carts, cart items and the
    users that own carts), the validators declared on their fields, and the
    cascading deletes declared on their foreign keys. */
module Models {

  type Id = nat
  type UserId = nat

  /** max_length of every name field. */
  const MaxNameLength: nat := 128
  /** max_length of a product's description. */
  const MaxDescriptionLength: nat := 4096

  /** A row of the framework's user table, reduced to what the core reads. */
  datatype User = User(isStaff: bool)

  datatype ProductType = ProductType(name: string)

  /** `ammount` is the quantity on hand, spelled as in the source. */
  datatype Product = Product(name: string, description: string, productType: Id, price: int, ammount: int)

  datatype Cart = Cart(user: UserId)

  datatype CartItem = CartItem(product: Id, ammount: int, cart: Id)

  // ---------------------------------------------------------------------
  // Field validators
  // ---------------------------------------------------------------------

  /** blank=False and max_length=128: non-empty, at most 128 characters. Like
      every text field of the API, it refuses the NUL character. */
  predicate NameValid(name: string) {
    0 < |name| <= MaxNameLength && '\0' !in name
  }

  /** blank=True and max_length=4096: may be empty, at most 4096 characters,
      and no NUL character. */
  predicate DescriptionValid(description: string) {
    |description| <= MaxDescriptionLength && '\0' !in description
  }

  predicate ProductTypeValid(t: ProductType) {
    NameValid(t.name)
  }

  /** Both MinValueValidator(0)s: price and stock are never negative. */
  predicate ProductValid(p: Product) {
    NameValid(p.name) && DescriptionValid(p.description) && p.price >= 0 && p.ammount >= 0
  }

  predicate CartItemValid(i: CartItem) {
    i.ammount >= 0
  }

  // ---------------------------------------------------------------------
  // Tables and the database
  // ---------------------------------------------------------------------

  /** A table: its rows by primary key, and the key its next insert receives
      (the auto-increment counter). */
  datatype Table<T> = Table(rows: map<Id, T>, next: Id)

  predicate KeysBelowNext<T>(t: Table<T>) {
    forall id :: id in t.rows ==> id < t.next
  }

  /** An insert stores the row under the counter's key and advances the
      counter; that key is one no row holds yet, so every row is kept and
      exactly one is added. */
  function Insert<T>(t: Table<T>, row: T): (r: Table<T>)
    ensures t.next in r.rows && r.rows[t.next] == row && r.next == t.next + 1
    ensures KeysBelowNext(t) ==>
      && t.next !in t.rows && KeysBelowNext(r) && |r.rows| == |t.rows| + 1
      && (forall id :: id in t.rows ==> id in r.rows && r.rows[id] == t.rows[id])
  {
    Table(t.rows[t.next := row], t.next + 1)
  }

  function Replace<T>(t: Table<T>, id: Id, row: T): Table<T> {
    Table(t.rows[id := row], t.next)
  }

  function Without<T>(t: Table<T>, ids: set<Id>): Table<T> {
    Table(t.rows - ids, t.next)
  }

  datatype Db = Db(
    users: Table<User>,
    types: Table<ProductType>,
    products: Table<Product>,
    carts: Table<Cart>,
    items: Table<CartItem>)

  /** Referential integrity: every foreign key names an existing row. */
  predicate Integrity(db: Db) {
    && (forall p :: p in db.products.rows ==> db.products.rows[p].productType in db.types.rows)
    && (forall c :: c in db.carts.rows ==> db.carts.rows[c].user in db.users.rows)
    && (forall i :: i in db.items.rows ==>
          db.items.rows[i].cart in db.carts.rows && db.items.rows[i].product in db.products.rows)
  }

  /** Every stored row passes its field validators. */
  predicate RowsValid(db: Db) {
    && (forall t :: t in db.types.rows ==> ProductTypeValid(db.types.rows[t]))
    && (forall p :: p in db.products.rows ==> ProductValid(db.products.rows[p]))
    && (forall i :: i in db.items.rows ==> CartItemValid(db.items.rows[i]))
  }

  predicate Numbered(db: Db) {
    KeysBelowNext(db.users) && KeysBelowNext(db.types) && KeysBelowNext(db.products)
    && KeysBelowNext(db.carts) && KeysBelowNext(db.items)
  }

  predicate WellFormed(db: Db) {
    Integrity(db) && RowsValid(db) && Numbered(db)
  }

  predicate SubMap<V(==)>(a: map<Id, V>, b: map<Id, V>) {
    forall k :: k in a ==> k in b && a[k] == b[k]
  }

  /** Every row of `a` is a row of `b`, unchanged. */
  predicate SubDb(a: Db, b: Db) {
    && SubMap(a.users.rows, b.users.rows)
    && SubMap(a.types.rows, b.types.rows)
    && SubMap(a.products.rows, b.products.rows)
    && SubMap(a.carts.rows, b.carts.rows)
    && SubMap(a.items.rows, b.items.rows)
  }

  /** No counter moves. */
  predicate SameCounters(a: Db, b: Db) {
    a.users.next == b.users.next && a.types.next == b.types.next && a.products.next == b.products.next
    && a.carts.next == b.carts.next && a.items.next == b.items.next
  }

  // ---------------------------------------------------------------------
  // on_delete=CASCADE
  // ---------------------------------------------------------------------

  function ProductsOfType(db: Db, t: Id): set<Id> {
    set p | p in db.products.rows && db.products.rows[p].productType == t
  }

  function ItemsOfProducts(db: Db, ps: set<Id>): set<Id> {
    set i | i in db.items.rows && db.items.rows[i].product in ps
  }

  function CartsOfUser(db: Db, u: UserId): set<Id> {
    set c | c in db.carts.rows && db.carts.rows[c].user == u
  }

  function ItemsOfCarts(db: Db, cs: set<Id>): set<Id> {
    set i | i in db.items.rows && db.items.rows[i].cart in cs
  }

  /** Removing rows never breaks the field validators or the numbering. */
  lemma SubDbKeepsRowsValid(a: Db, b: Db)
    requires SubDb(a, b) && SameCounters(a, b)
    ensures RowsValid(b) && Numbered(b) ==> RowsValid(a) && Numbered(a)
  {
  }

  /** A cart item: nothing refers to it, so only its own row goes. */
  function DeleteCartItem(db: Db, id: Id): (r: Db)
    ensures SubDb(r, db) && SameCounters(r, db)
    ensures r.items.rows.Keys == db.items.rows.Keys - {id}
    ensures r.users == db.users && r.types == db.types && r.products == db.products && r.carts == db.carts
    ensures WellFormed(db) ==> WellFormed(r)
  {
    var r := db.(items := Without(db.items, {id}));
    SubDbKeepsRowsValid(r, db);
    r
  }

  /** A cart and, through CartItem.cart, exactly the items in it. */
  function DeleteCart(db: Db, id: Id): (r: Db)
    ensures SubDb(r, db) && SameCounters(r, db)
    ensures r.carts.rows.Keys == db.carts.rows.Keys - {id}
    ensures forall i :: i in db.items.rows ==> (i in r.items.rows <==> db.items.rows[i].cart != id)
    ensures r.users == db.users && r.types == db.types && r.products == db.products
    ensures WellFormed(db) ==> WellFormed(r)
  {
    var r := db.(carts := Without(db.carts, {id}), items := Without(db.items, ItemsOfCarts(db, {id})));
    SubDbKeepsRowsValid(r, db);
    r
  }

  /** A product and, through CartItem.product, exactly the cart lines
      holding it. */
  function DeleteProduct(db: Db, id: Id): (r: Db)
    ensures SubDb(r, db) && SameCounters(r, db)
    ensures r.products.rows.Keys == db.products.rows.Keys - {id}
    ensures forall i :: i in db.items.rows ==> (i in r.items.rows <==> db.items.rows[i].product != id)
    ensures r.users == db.users && r.types == db.types && r.carts == db.carts
    ensures WellFormed(db) ==> WellFormed(r)
  {
    var r := db.(products := Without(db.products, {id}), items := Without(db.items, ItemsOfProducts(db, {id})));
    SubDbKeepsRowsValid(r, db);
    r
  }

  /** A product type, exactly the products of that type (Product.type), and,
      transitively, exactly the cart lines holding one of those products. */
  function DeleteProductType(db: Db, id: Id): (r: Db)
    ensures SubDb(r, db) && SameCounters(r, db)
    ensures r.types.rows.Keys == db.types.rows.Keys - {id}
    ensures forall p :: p in db.products.rows ==>
      (p in r.products.rows <==> db.products.rows[p].productType != id)
    ensures Integrity(db) ==> forall i :: i in db.items.rows ==>
      (i in r.items.rows <==> db.products.rows[db.items.rows[i].product].productType != id)
    ensures r.users == db.users && r.carts == db.carts
    ensures WellFormed(db) ==> WellFormed(r)
  {
    var ps := ProductsOfType(db, id);
    var r := db.(types := Without(db.types, {id}),
                 products := Without(db.products, ps),
                 items := Without(db.items, ItemsOfProducts(db, ps)));
    SubDbKeepsRowsValid(r, db);
    r
  }

  /** A user, exactly their carts (Cart.user), and exactly the items of
      those carts. */
  function DeleteUser(db: Db, u: UserId): (r: Db)
    ensures SubDb(r, db) && SameCounters(r, db)
    ensures r.users.rows.Keys == db.users.rows.Keys - {u}
    ensures forall c :: c in db.carts.rows ==> (c in r.carts.rows <==> db.carts.rows[c].user != u)
    ensures Integrity(db) ==> forall i :: i in db.items.rows ==>
      (i in r.items.rows <==> db.carts.rows[db.items.rows[i].cart].user != u)
    ensures r.types == db.types && r.products == db.products
    ensures WellFormed(db) ==> WellFormed(r)
  {
    var cs := CartsOfUser(db, u);
    var r := db.(users := Without(db.users, {u}),
                 carts := Without(db.carts, cs),
                 items := Without(db.items, ItemsOfCarts(db, cs)));
    SubDbKeepsRowsValid(r, db);
    r
  }

  /** Deleting a cart keeps every row that can stay: any sub-database without
      the cart whose foreign keys resolve lies inside the result. */
  lemma DeleteCartRemovesOnlyDependents(db: Db, id: Id, d: Db)
    requires SubDb(d, db) && Integrity(d) && id !in d.carts.rows
    ensures SubDb(d, DeleteCart(db, id))
  {
    var r := DeleteCart(db, id);
    forall i | i in d.items.rows
      ensures i in r.items.rows && r.items.rows[i] == d.items.rows[i]
    {
      assert d.items.rows[i].cart in d.carts.rows;
    }
  }

  lemma DeleteProductRemovesOnlyDependents(db: Db, id: Id, d: Db)
    requires SubDb(d, db) && Integrity(d) && id !in d.products.rows
    ensures SubDb(d, DeleteProduct(db, id))
  {
    var r := DeleteProduct(db, id);
    forall i | i in d.items.rows
      ensures i in r.items.rows && r.items.rows[i] == d.items.rows[i]
    {
      assert d.items.rows[i].product in d.products.rows;
    }
  }

  lemma DeleteProductTypeRemovesOnlyDependents(db: Db, id: Id, d: Db)
    requires SubDb(d, db) && Integrity(d) && id !in d.types.rows
    ensures SubDb(d, DeleteProductType(db, id))
  {
    var r := DeleteProductType(db, id);
    forall p | p in d.products.rows
      ensures p in r.products.rows && r.products.rows[p] == d.products.rows[p]
    {
      assert d.products.rows[p].productType in d.types.rows;
    }
    forall i | i in d.items.rows
      ensures i in r.items.rows && r.items.rows[i] == d.items.rows[i]
    {
      var p := d.items.rows[i].product;
      assert p in d.products.rows;
      assert d.products.rows[p].productType in d.types.rows;
    }
  }

  lemma DeleteUserRemovesOnlyDependents(db: Db, u: UserId, d: Db)
    requires SubDb(d, db) && Integrity(d) && u !in d.users.rows
    ensures SubDb(d, DeleteUser(db, u))
  {
    var r := DeleteUser(db, u);
    forall c | c in d.carts.rows
      ensures c in r.carts.rows && r.carts.rows[c] == d.carts.rows[c]
    {
      assert d.carts.rows[c].user in d.users.rows;
    }
    forall i | i in d.items.rows
      ensures i in r.items.rows && r.items.rows[i] == d.items.rows[i]
    {
      var c := d.items.rows[i].cart;
      assert c in d.carts.rows;
      assert d.carts.rows[c].user in d.users.rows;
    }
  }

  /** Cart.user carries no uniqueness constraint: a well-formed database may
      hold two carts of the same user. */
  lemma TwoCartsOfOneUserAllowed()
    ensures var db := Db(
      Table(map[0 := User(false)], 1),
      Table(map[], 0),
      Table(map[], 0),
      Table(map[0 := Cart(0), 1 := Cart(0)], 2),
      Table(map[], 0));
      WellFormed(db) && CartsOfUser(db, 0) == {0, 1}
  {
    var db := Db(
      Table(map[0 := User(false)], 1),
      Table(map[], 0),
      Table(map[], 0),
      Table(map[0 := Cart(0), 1 := Cart(0)], 2),
      Table(map[], 0));
    assert 0 in CartsOfUser(db, 0) && 1 in CartsOfUser(db, 0);
  }
}
