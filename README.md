# Web-store backend: cart, access control and delete guards

This project models the small pieces of logic inside a web-store backend built
on a REST framework. The model is an in-memory store with four tables:
products, collections, order items and cart items.

- **Cart serializers** (`serializers.dfy`, module `Serializers`).
  - The total of a cart item is its quantity times its product's price.
  - The total of a cart is the sum of its items' totals.
  - Adding a product to a cart is an add-or-merge write on the cart-items
    table (`CartItemTable.Add`). The product id is first checked against the
    product table. Then the single-row lookup of the (cart, product) row
    either finds the row, whose quantity grows, or finds none, and one row is
    inserted.
  - The table invariant "at most one row per (cart, product)" is kept by every
    add. It is what makes the single-row lookup safe: on such a table the
    lookup never raises its "more than one row" error (`UniqueLookupIsSafe`).
  - The cart-item update takes only `quantity` from its payload.
  - A review takes its product from the route, never from its payload.
- **Permissions** (`permissions.dfy`, module `Permissions`).
  - Read-open/write-restricted: safe methods always pass; other methods need
    a staff user.
  - The customer-history check needs the `store.view_history` permission.
  - The model-permission class replaces the GET entry of its map of required
    permissions (`ModelPermissions`). The source line ends in a comma, so the
    stored value is a 1-tuple holding the list, and the model stores exactly
    that.
- **Delete handlers** (`catalog.dfy`, module `Catalog`, class `Catalog`).
  - `DeleteProduct` serves both class-based product handlers
    (store/note.py:23-27 and store/note.py:36-40, which are the same code).
    It refuses while order items reference the product.
  - `DeleteCollection` serves the collection view set (store/note.py:48-54)
    and the DELETE branch of the function-based collection view
    (store/note.py:119-135, the same lookup and guard). It refuses while the
    collection holds products.
  - `DeleteProductUnguarded` is the DELETE branch of the function-based
    product view. It removes the product with no guard at all.
  - Refusals carry the default status 200 with an error body, as the code
    does.
  - Both guarded deletes keep referential integrity (`Intact`). The unguarded
    one breaks it whenever an order item references the product it removes
    (`ReferencedProductRemovalOrphans`).

Shared pieces: `models.dfy` (module `Models`) holds the row types and
`wrappers.dfy` (module `Wrappers`) holds `Option` and `Result`.

Representation choices:
- Prices are integer cents.
- Primary keys are natural numbers.
- A cart's UUID token is a natural number.
- Request payloads are maps from field name to value.

Where the code differs from what a reader might expect, the model follows the code:
- The two class-based product delete handlers return nothing at all after
  deleting. The model's outcome is `NoResponse`, not a "no content" response.
- Quantity validation lives in the cart-item model declaration, which is not
  part of this model. So `Add` accepts any integer quantity, and the table
  invariant does not include "quantity is positive".
- No class combines the permission checks; each permission class is
  modelled on its own.

## Model

| member | source | states |
|---|---|---|
| `Serializers.ItemTotal` | store/api/serializers.py:44-45 | an item's total is 0 when its quantity or its product's price is 0, and is never negative when both are non-negative |
| `Serializers.ItemTotalAdditive` | store/api/serializers.py:44-45 | an item's total is quantity × price, so raising the quantity by q raises the total by q × price |
| `Serializers.ItemsOf` | store/api/serializers.py:59 | every table row whose cart is that cart is among the cart's items, no row of another cart is, and the items are no more than the table's rows |
| `Serializers.ItemsOfCounts` | store/api/serializers.py:59 | each row of the cart occurs among the cart's items exactly as many times as in the table, and a row of another cart occurs zero times |
| `Serializers.SumTotals` | store/api/serializers.py:58-59 | the sum over no items is 0, and a sum of item totals that are all non-negative is non-negative |
| `Serializers.CartTotalCons` | store/api/serializers.py:58-59 | a cart's total is the first row's total when that row belongs to the cart (0 otherwise) plus the cart's total over the remaining rows |
| `Serializers.EmptyCartTotalsZero` | store/api/serializers.py:58-59 | a cart with no items totals 0 |
| `Serializers.SumTotalsAppend` | store/api/serializers.py:59 | the sum of item totals over two concatenated lists is the sum of the two sums |
| `Serializers.CartTotalAppend` | store/api/serializers.py:58-59 | appending a row adds its total to its own cart's total and changes no other cart's total |
| `Serializers.SumTotalsUpdate` | store/api/serializers.py:58-59 | replacing a row by one of the same cart changes that cart's total by the difference of the two item totals and no other cart's total |
| `Serializers.ValidateProductId` | store/api/serializers.py:69-72 | the product id passes exactly when the product table holds it; otherwise the error is "No product with the given id was found." |
| `Serializers.Get` | store/api/serializers.py:80 | the single-row lookup finds the one row of the (cart, product) pair, reports that there is none exactly when no row matches, and raises only when two rows match |
| `Serializers.GetFindsTheRow` | store/api/serializers.py:80 | on a table with one row per (cart, product), looking up a row's own pair finds that row |
| `Serializers.UniqueLookupIsSafe` | store/api/serializers.py:80 | on a table with one row per (cart, product) the lookup never raises "more than one row" |
| `Serializers.Upsert` | store/api/serializers.py:74-89 | the table grows by one row exactly when no row has the pair, and that new last row carries the next id, the cart, the product and the quantity; every row of another pair keeps its position and value |
| `Serializers.NextIdAfter` | store/api/serializers.py:85-88 | the next id moves on by one exactly when no row has the pair, that is, when the add inserts a row; otherwise it stays |
| `Serializers.UpsertMerges` | store/api/serializers.py:80-84 | with a row for the pair, add grows that row's quantity by exactly the requested amount, changes no other row and inserts none |
| `Serializers.UpsertInserts` | store/api/serializers.py:85-88 | without a row for the pair, add appends exactly one row with that cart, product, quantity and the next id |
| `Serializers.UpsertPreservesInvariant` | store/api/serializers.py:74-89 | add keeps at most one row per (cart, product) and keeps row ids distinct and below the next id |
| `Serializers.UpsertKeepsOtherRows` | store/api/serializers.py:74-89 | every row of another (cart, product) pair is in the table after the add exactly when it was before |
| `Serializers.UpsertCartTotal` | store/api/serializers.py:74-89 | add raises its cart's total by quantity × price and leaves every other cart's total unchanged |
| `Serializers.AddTwiceMerges` | store/api/serializers.py:80-88 | two adds of one product to one cart that held none leave one new row, with quantity a + b, and the old rows as they were |
| `Serializers.CartItemTable.Add` | store/api/serializers.py:66-89 | an unknown product id fails with the validation message and leaves the table as it was; otherwise the table becomes the add-or-merge of the old one, the invariant holds, and the row returned is the pair's row in the new table |
| `Serializers.ApplyCartItemUpdate` | store/api/serializers.py:96-99 | an update writes only the quantity: id, cart and product never change, and a payload without quantity changes nothing |
| `Serializers.CreateReview` | store/api/serializers.py:23-30 | a created review's product is the one from the context, and its fields are exactly the payload's name, description and date |
| `Serializers.CreateReviewIgnoresOtherFields` | store/api/serializers.py:26-30 | two payloads that agree on name, description and date create the same review, whatever product id either carries |
| `Permissions.IsAdminOrReadOnly` | store/permissions.py:6-9 | a staff user is permitted every method; without a user, exactly the safe methods are permitted |
| `Permissions.SafeMethodsArePermitted` | store/permissions.py:7-8 | GET, HEAD and OPTIONS are permitted with or without a user |
| `Permissions.WritesNeedStaff` | store/permissions.py:9 | a method that is not safe is permitted exactly when a user is present and is staff |
| `Permissions.AnonymousCannotWrite` | store/permissions.py:9 | with no user, or with the anonymous user, every method that is not safe is refused |
| `Permissions.AdminOrReadOnlyIgnoresView` | store/permissions.py:6-9 | the read-open decision is the same for every view |
| `Permissions.CanViewCustomerHistory` | store/permissions.py:19-20 | access is granted only to a user holding store.view_history, so a user without permissions is refused |
| `Permissions.HistoryNeedsOnlyThePermission` | store/permissions.py:19-20 | history access is granted exactly when the user holds store.view_history, for every method and every view |
| `Permissions.ModelPermissions.constructor` | store/permissions.py:13-15 | only the GET entry of the map changes; it becomes a 1-tuple holding the list with the view template, which is not a list of templates |
| `Catalog.OrderItemCount` | store/note.py:25 | the count of order items referencing a product is 0 exactly when no order item references it |
| `Catalog.ProductCount` | store/note.py:51 | the count of a collection's products is 0 exactly when no product belongs to it |
| `Catalog.UnreferencedProductRemovable` | store/note.py:23-27 | removing a product that no order item references keeps every reference valid |
| `Catalog.EmptyCollectionRemovable` | store/note.py:48-54 | removing a collection without products keeps every reference valid |
| `Catalog.ReferencedProductRemovalOrphans` | store/note.py:95-102 | removing a product that some order item references always leaves that order item referencing no product, whatever the tables hold |
| `Catalog.DecimalString` | store/note.py:81 | the id in a message is a non-empty run of decimal digits, without a leading zero, that spells the id |
| `Catalog.Catalog.DeleteProduct` | store/note.py:23-27 | an absent id gives not-found and changes nothing; a referenced product gets the error body with status 200 and stays; otherwise exactly that product is removed and nothing is returned; other tables never change and integrity is kept |
| `Catalog.Catalog.DeleteCollection` | store/note.py:48-54 | an absent id gives not-found and changes nothing; a collection with products gets the error body with status 200 and stays, with its products; otherwise it is removed with 204 and no body; integrity is kept |
| `Catalog.Catalog.DeleteProductUnguarded` | store/note.py:73-102 | an absent id gives 404 with the message naming the id and changes nothing; a present product is removed whatever references it, with 204 and the message naming the id; when an order item references it, the tables are no longer intact afterwards |

## Left out

- Reading and writing rows through the object-relational mapper: every table is an in-memory map or sequence, and each query is a lookup on it.
- The model declarations (store/models.py is not part of this model). Field validation, cascading deletes and protected references are not modelled. Deletes remove only the row named.
- Serializer marshalling: the nested product summary of a cart item, and the GET, PUT and POST branches of the function-based views. These are framework behaviour.
- Cart creation, cart deletion, item removal and item listing. The generic view sets provide them, and no core code of the store implements them.
- Customer profiles and their get-or-create behaviour are not modelled.
- Routing, admin registration and the user serializer and model.
- The framework's own default entries of the required-permissions map, and how the model-permission check reads it. The constructor takes the inherited map as a parameter.
- Permissions.ModelPermissions.constructor: the map it writes is shared by every instance of the class in the source; the model gives each instance its own map.
- Permissions.HasPerm: a user's permissions are the set its authentication backends grant. The rule that active superusers hold every permission is not modelled.
- Permissions.CanViewCustomerHistory: requires a user to be present. The source reads the user's permission without checking, so a request without a user fails in the source.
- Catalog.Catalog.DeleteProduct: models the handler returning nothing, but not the server error the framework then raises.
- Catalog.Catalog.DeleteCollection: `status` is not imported in that source file, so the success path as written fails after deleting. The model answers 204 as the code states.
- Catalog.Catalog.DeleteProductUnguarded: same missing import; the model answers with the statuses the code names.
- The body of the framework's 404 answer is one abstract value, `NotFoundDetail`.
- Serializers.CreateReview: the new review's id is a parameter; id assignment and the review table insert are not modelled.
- Serializers.CartItemTable.Add: models the add as one sequential step. The check-then-insert race between concurrent requests is not modelled.
- Decimal prices: prices are integer cents, so there is no rounding.
- The class attributes the list and view-set classes assign by mistake (store/note.py:11-12, store/note.py:33-34).
