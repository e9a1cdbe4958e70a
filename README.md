# Store backend: cart ownership, cascades, permissions and phone validation

A Dafny model of the policy core of a small REST store backend built on
Django and Django REST framework. The store keeps product types, products,
carts and cart items. Carts belong to users. The model covers:

- **models.py** (module `Models`): the entities; the field validators as
  predicates (names of 1 to 128 characters, descriptions of at most 4096,
  prices and quantities not negative); referential integrity; and each
  `on_delete=CASCADE` foreign key as a delete function.
- **views.py** (modules `Views` and `ViewSets`):
  - `Views` holds the two `get_queryset` filters as functions of the
    database. It also holds every create, update and destroy action of the
    four viewsets as a function from the database to an `Outcome`: the new
    database, or `Invalid`, `PermissionDenied` or `NotFound`.
  - `ViewSets.Store` is a class holding the five tables as fields. Each
    action is a method that updates them in place and is proved against its
    function in `Views`, keeping the invariant `WellFormed`.
- **permissions.py** (module `Permissions`): `IsAdminOrSelf` as two pure
  decision functions and their combination.
- **forms.py** (module `Forms`): `clean_phone_number`. The regular
  expression `^\+?1?\d{9,15}$` is spelled out piece by piece, with Python's
  `re.match` and `$` semantics. A lemma proves it equal to a direct
  description of the accepted strings.

Module `Outcomes` holds `Option`, `Outcome` and the three error kinds.

Some behaviour of the code differs from what a reader might expect:

- **Carts per user.** The TODO at `views.py:46` intends one cart per user,
  created automatically. The code allows any number: creating a cart never
  checks for an existing one, and `Cart.user` is not unique.
- **The `user` field of a cart payload.** A cart cannot be created with an
  empty body. `CartSerializer` requires `user` to name an existing user,
  because the foreign key is non-null, and refuses the payload otherwise.
  Only after that does `perform_create` overwrite the field with the
  requester.
- **Sixteen-digit phone numbers.** The error message says up to 15 digits.
  The pattern also accepts 16 digits whose first is `1`, because the
  optional `1` takes that digit. It also accepts a number followed by one
  newline.
- **Updates.** Updating a cart or an item checks ownership only when it
  looks the row up. A requester can then hand their cart to another user,
  or move their item into another user's cart. Creating the same item would
  have been refused.

## Model

| member | source | states |
|---|---|---|
| `Models.NameValid` | store_backend/backend/models.py:9-10 | A name is valid exactly when it has 1 to 128 characters and no NUL character |
| `Models.DescriptionValid` | store_backend/backend/models.py:16-17 | A description is valid exactly when it has at most 4096 characters, possibly none, and no NUL character |
| `Models.ProductTypeValid` | store_backend/backend/models.py:8-10 | A product type is valid exactly when its name is |
| `Models.ProductValid` | store_backend/backend/models.py:13-22 | A product is valid exactly when its name and description are, and its price and ammount are not negative |
| `Models.CartItemValid` | store_backend/backend/models.py:31-32 | A cart item is valid exactly when its ammount is not negative |
| `Models.Integrity` | store_backend/backend/models.py:18-33 | Every foreign key resolves: a product's type, a cart's user, an item's cart and product all exist |
| `Models.RowsValid` | store_backend/backend/models.py:8-33 | Every stored product type, product and cart item passes its field validators |
| `Models.WellFormed` | store_backend/backend/models.py:8-33 | The invariant every action keeps: integrity, valid rows, and every key below its table's counter |
| `Models.Insert` | store_backend/backend/models.py:8-33 | An insert stores the given row under the counter's key and advances the counter. That key is held by no row, so every existing row is kept and exactly one is added |
| `Models.DeleteCartItem` | store_backend/backend/models.py:29-33 | Deleting a cart item removes only that row. Nothing else changes and a well-formed database stays well formed |
| `Models.DeleteCart` | store_backend/backend/models.py:33 | Deleting a cart removes it and exactly the items whose cart it was (CASCADE on CartItem.cart). Users and the catalogue are untouched; well-formedness is kept |
| `Models.DeleteCartRemovesOnlyDependents` | store_backend/backend/models.py:33 | The cascade keeps every row that can stay: any sub-database without the cart whose foreign keys resolve lies inside the result |
| `Models.DeleteProduct` | store_backend/backend/models.py:30 | Deleting a product removes it and exactly the cart items holding it. Users, types and carts are untouched; well-formedness is kept |
| `Models.DeleteProductRemovesOnlyDependents` | store_backend/backend/models.py:30 | Any sub-database without the product whose foreign keys resolve survives its deletion |
| `Models.DeleteProductType` | store_backend/backend/models.py:18-30 | Deleting a product type removes exactly the products of that type and, when foreign keys resolve, exactly the cart items holding one of them. Users and carts are untouched; well-formedness is kept |
| `Models.DeleteProductTypeRemovesOnlyDependents` | store_backend/backend/models.py:18-30 | Any sub-database without the type whose foreign keys resolve survives the two-level cascade |
| `Models.DeleteUser` | store_backend/backend/models.py:26-33 | Deleting a user removes exactly their carts and, when foreign keys resolve, exactly the items in those carts. The catalogue is untouched; well-formedness is kept |
| `Models.DeleteUserRemovesOnlyDependents` | store_backend/backend/models.py:26-33 | Any sub-database without the user whose foreign keys resolve survives its deletion |
| `Models.TwoCartsOfOneUserAllowed` | store_backend/backend/models.py:25-26 | `Cart.user` is not unique: a well-formed database may hold two carts of one user |
| `Views.ListCarts` | store_backend/backend/views.py:35-40 | The cart list of a user holds exactly the carts whose user is that user, which are exactly the carts deleting that user removes, with their stored values |
| `Views.ListCartItems` | store_backend/backend/views.py:58-63 | The item list of a user holds exactly the items whose cart is in that user's cart list, with their stored values |
| `Views.ProductAcceptable` | store_backend/backend/serializers.py:9-12 | ProductSerializer accepts a product exactly when it passes the field validators and its type exists |
| `Views.CartAcceptable` | store_backend/backend/serializers.py:14-17 | CartSerializer accepts a cart exactly when its user exists |
| `Views.CartItemAcceptable` | store_backend/backend/serializers.py:19-22 | CartItemSerializer accepts an item exactly when its ammount is not negative and its product and cart exist, whoever owns the cart |
| `Views.RetrieveCart` | store_backend/backend/views.py:27-40 | A cart lookup succeeds if and only if the cart exists and belongs to the requester, returning the stored row; otherwise NotFound |
| `Views.RetrieveCartItem` | store_backend/backend/views.py:50-63 | An item lookup succeeds if and only if the item exists and its cart belongs to the requester; otherwise NotFound |
| `Views.CreateProductType` | store_backend/backend/views.py:7-14 | Succeeds if and only if the name has 1 to 128 characters and no NUL, otherwise Invalid. The new type is stored under the table's next key; no other table changes. The table gains one row and stays well formed |
| `Views.UpdateProductType` | store_backend/backend/views.py:7-14 | NotFound if and only if the type does not exist; succeeds if and only if it exists and the name has 1 to 128 characters and no NUL; otherwise Invalid. The row is replaced by the payload; the counter, the other rows and the other tables are unchanged; well-formedness kept |
| `Views.DestroyProductType` | store_backend/backend/views.py:7-14 | Succeeds if and only if the type exists, otherwise NotFound. The result is exactly `Models.DeleteProductType`: the type, its products and the items holding them go, nothing else; well-formedness kept |
| `Views.CreateProduct` | store_backend/backend/views.py:17-24 | Succeeds if and only if the name has 1 to 128 characters, the description at most 4096 (possibly none), neither holds a NUL, price and ammount are not negative and the type exists; otherwise Invalid. The new product is stored under the table's next key; no other table changes |
| `Views.UpdateProduct` | store_backend/backend/views.py:17-24 | NotFound if and only if the product does not exist; succeeds if and only if it exists and the payload would be accepted by create; otherwise Invalid. The row is replaced by the payload; the counter, the other rows and the other tables are unchanged; well-formedness kept |
| `Views.DestroyProduct` | store_backend/backend/views.py:17-24 | Succeeds if and only if the product exists, otherwise NotFound. The result is exactly `Models.DeleteProduct`: the product and the items holding it go, nothing else; well-formedness kept |
| `Views.CreateCart` | store_backend/backend/views.py:42-47 | Succeeds if and only if the payload's user exists, otherwise Invalid. `Cart(requester)` is stored under the next key, whatever user the payload named, even when the requester already owns carts; their cart list gains exactly that cart. No other table changes; well-formedness kept |
| `Views.UpdateCart` | store_backend/backend/views.py:27-40 | NotFound if and only if the cart is not in the requester's list; succeeds if and only if it is and the payload's user exists; otherwise Invalid. The row becomes the payload and every other cart keeps its owner, so the cart now belongs to the payload's user. No other table changes; well-formedness kept |
| `Views.DestroyCart` | store_backend/backend/views.py:27-40 | Succeeds if and only if the cart is in the requester's list, otherwise NotFound. The result is exactly `Models.DeleteCart`: the cart and its items go, nothing else; well-formedness kept |
| `Views.CreateCartItem` | store_backend/backend/views.py:65-72 | Invalid if and only if the payload fails validation; PermissionDenied if and only if it is valid but its cart is not the requester's. It succeeds if and only if the item is valid and its cart is the requester's: the given item is stored under the next key and the requester's item list gains exactly it: no merge, no stock check, no other table changes; well-formedness kept |
| `Views.UpdateCartItem` | store_backend/backend/views.py:50-63 | NotFound if and only if the item is not in the requester's list; succeeds if and only if it is and the payload is valid; otherwise Invalid. The row becomes the payload (product, ammount, cart) and every other item stays. With no ownership check, the item then lies in the list of the owner of the payload's cart |
| `Views.DestroyCartItem` | store_backend/backend/views.py:50-63 | Succeeds if and only if the item is in the requester's list, otherwise NotFound. The result is exactly `Models.DeleteCartItem`: that row goes, nothing else |
| `Views.ListsDisjoint` | store_backend/backend/views.py:35-63 | Two different users never see a common cart or a common item |
| `Views.ForeignCartNotFound` | store_backend/backend/views.py:27-40 | Retrieving, updating or destroying another user's cart reports NotFound, so nothing changes |
| `Views.ForeignCartItemNotFound` | store_backend/backend/views.py:50-63 | Retrieving, updating or destroying an item in another user's cart reports NotFound |
| `Views.CreateCartLeavesOthersAlone` | store_backend/backend/views.py:42-47 | Creating a cart leaves every other user's cart list as it was |
| `Views.CreateCartItemLeavesOthersAlone` | store_backend/backend/views.py:65-72 | Creating a cart item leaves every other user's item list as it was |
| `Views.UpdateCartReassignsOwner` | store_backend/backend/views.py:27-47 | A requester can hand their cart to another existing user by updating it; the cart then leaves their list and joins that user's |
| `Views.UpdateCartItemMovesToForeignCart` | store_backend/backend/views.py:50-72 | Creating an item in another user's cart is refused, but updating one of the requester's items can move it into that cart |
| `ViewSets.Store.DeleteUser` | store_backend/backend/models.py:26 | The tables become `Models.DeleteUser` of the old ones; the invariant is kept |
| `ViewSets.Store.CreateProductType` | store_backend/backend/views.py:7-14 | Returns the new key on success. The tables become `Views.CreateProductType` of the old ones, or are unchanged with the same error |
| `ViewSets.Store.UpdateProductType` | store_backend/backend/views.py:7-14 | Tables follow `Views.UpdateProductType`: NotFound, then Invalid, else the row replaced |
| `ViewSets.Store.DestroyProductType` | store_backend/backend/views.py:7-14 | Tables follow `Views.DestroyProductType`: NotFound, else the cascade |
| `ViewSets.Store.CreateProduct` | store_backend/backend/views.py:17-24 | Tables follow `Views.CreateProduct`; the new key is returned |
| `ViewSets.Store.UpdateProduct` | store_backend/backend/views.py:17-24 | Tables follow `Views.UpdateProduct` |
| `ViewSets.Store.DestroyProduct` | store_backend/backend/views.py:17-24 | Tables follow `Views.DestroyProduct`, cascading to cart items |
| `ViewSets.Store.CreateCart` | store_backend/backend/views.py:42-47 | Returns the new key, whose cart is owned by the requester. Tables follow `Views.CreateCart`, and are unchanged on error |
| `ViewSets.Store.UpdateCart` | store_backend/backend/views.py:27-40 | Tables follow `Views.UpdateCart`: NotFound outside the requester's carts, then Invalid, else the payload stored as given |
| `ViewSets.Store.DestroyCart` | store_backend/backend/views.py:27-40 | Tables follow `Views.DestroyCart`: NotFound outside the requester's carts, else the cart and its items removed |
| `ViewSets.Store.CreateCartItem` | store_backend/backend/views.py:65-72 | Returns the new key holding the given item. Tables follow `Views.CreateCartItem` and are unchanged on Invalid or PermissionDenied |
| `ViewSets.Store.UpdateCartItem` | store_backend/backend/views.py:58-63 | Tables follow `Views.UpdateCartItem`: NotFound outside the requester's items, then Invalid, else replaced as given |
| `ViewSets.Store.DestroyCartItem` | store_backend/backend/views.py:58-63 | Tables follow `Views.DestroyCartItem` |
| `Permissions.HasPermission` | store_backend/backend/permissions.py:7-11 | has_permission holds if and only if the action is not `list` or the requester is staff |
| `Permissions.HasObjectPermission` | store_backend/backend/permissions.py:13-15 | Staff have object permission on every target; anyone else on a target if and only if it is themself |
| `Permissions.Allows` | store_backend/backend/permissions.py:7-15 | Both checks together: staff may do anything. Anyone else is allowed exactly the non-list actions that target no row or their own row |
| `Forms.MatchesPhonePattern` | store_backend/backend/forms.py:14 | The pattern under `re.match`, spelled out piece by piece: an optional `+`, an optional `1`, 9 to 15 digits, then the end of the string or one final newline |
| `Forms.PhonePatternIsShape` | store_backend/backend/forms.py:14 | The pattern, spelled out piece by piece with backtracking over the optional `+` and `1` and with `$` before a final newline, accepts exactly this: after one final newline and one leading `+` are dropped, 9 to 15 digits remain, or 16 digits starting with `1` |
| `Forms.CleanPhoneNumber` | store_backend/backend/forms.py:12-16 | None and "" pass. Any other value passes exactly when it has the accepted shape. A passing value is returned unchanged; a failing one is refused as Invalid. The change form's copy at forms.py:24-28 is identical |
| `Forms.DigitStringAccepted` | store_backend/backend/forms.py:14 | A digit string of length n passes if and only if 9 <= n <= 15, or n = 16 with first digit `1` |
| `Forms.NonDigitRefused` | store_backend/backend/forms.py:14-15 | A non-digit anywhere other than a leading `+` or a final newline makes validation fail |
| `Forms.CleanIdempotent` | store_backend/backend/forms.py:16 | Cleaning an accepted value again gives the same result |
| `Forms.Samples` | store_backend/backend/forms.py:14-15 | These pass: "+12345678901", "1234567890", "1234567890123456" and "123456789\n". These fail: "abc123", "2234567890123456" and "12345678" |

## Left out

- The user resource: registration, login, tokens, change-password and its viewset. They are not part of this model: `UserViewSet` is imported at `urls.py:3` and `CustomerUser` at `forms.py:5`, but neither `views.py` nor `models.py` defines them, and they would wrap the framework's authentication. Users appear only as rows with a staff flag.
- ViewSets.Store.AddUser stands in for the framework's user creation, so that carts have owners. It is not a source operation.
- List and retrieve on product types and products: they are plain, unscoped reads of a whole table.
- Payloads are whole rows. Absent fields, required-field errors and PATCH merging are not modelled. An absent `user` in a cart payload is refused as Invalid, just like a user that does not exist; the model covers only the latter.
- The serializer trims whitespace from text fields before it checks their length, and refuses a name that is only whitespace. This is not modelled: names are taken as already trimmed. The refusal of the NUL character, which the same text fields apply, is modelled.
- Integer fields are unbounded. The database's integer range is not modelled.
- Lists are maps from key to row. The order of the rows in a query is not modelled.
- Anonymous requests are not modelled: the requester on a cart or item action is an existing user (`requester in users.rows`).
- Transactions, concurrent requests and HTTP status codes are not modelled. Errors are the three `Error` kinds.
- Rows created directly through the ORM skip the field validators. The invariant `RowsValid` holds for rows written through the API only.
- The acceptance of a number followed by one newline is a property of the pattern alone. Django's form `CharField` strips surrounding whitespace before `clean_phone_number` reads the value, so if `phone_number` is such a field the newline never reaches the pattern. The field's type is not defined in `models.py`, so the model does not settle this.
- `\d` is restricted to ASCII digits. Python's `re` also accepts other Unicode decimal digits.
- `obj == request.user` compares model instances. The target is modelled as a user key, so a target that is not a user is not modelled.
