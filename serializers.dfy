/**
 * The cart side of the store's serializers: the computed totals of a cart item
 * and of a cart, the add-or-merge write of a cart item, the field set of the
 * cart-item update, and the creation of a review bound to its product.
 *
 * The cart-items table is a sequence of rows in table order. At most one row
 * may exist per (cart, product) pair; that is what makes the single-row
 * lookup of the add operation safe.
 */
module Serializers {
  import opened Wrappers
  import opened Models

  // ---------------------------------------------------------------------------
  // Computed totals
  // ---------------------------------------------------------------------------

  /** Every row references a product of the product table. */
  predicate Priced(rows: seq<CartItem>, products: map<ProductId, Product>)
  {
    forall it :: it in rows ==> it.product in products
  }

  /** The total of one cart item: its quantity times its product's price. */
  function ItemTotal(item: CartItem, products: map<ProductId, Product>): (t: int)
    requires item.product in products
    ensures item.quantity == 0 || products[item.product].price == 0 ==> t == 0
    ensures item.quantity >= 0 && products[item.product].price >= 0 ==> t >= 0
  {
    item.quantity * products[item.product].price
  }

  /** The items of one cart, in table order (the cart's related items). */
  function ItemsOf(rows: seq<CartItem>, cart: CartId): (items: seq<CartItem>)
    ensures |items| <= |rows|
    ensures forall it :: it in items <==> it in rows && it.cart == cart
  {
    if rows == [] then []
    else (if rows[0].cart == cart then [rows[0]] else []) + ItemsOf(rows[1..], cart)
  }

  /** Each row of the cart occurs among its items exactly as often as in the table, and no other row occurs. */
  lemma {:induction false} ItemsOfCounts(rows: seq<CartItem>, cart: CartId)
    ensures forall it :: multiset(ItemsOf(rows, cart))[it] == if it.cart == cart then multiset(rows)[it] else 0
  {
    if rows != [] {
      ItemsOfCounts(rows[1..], cart);
      assert rows == [rows[0]] + rows[1..];
    }
  }

  /** The sum of the item totals of `items`, added up from the first item on. */
  function SumTotals(items: seq<CartItem>, products: map<ProductId, Product>): (total: int)
    requires Priced(items, products)
    ensures items == [] ==> total == 0
    ensures (forall it :: it in items ==> ItemTotal(it, products) >= 0) ==> total >= 0
  {
    if items == [] then 0
    else ItemTotal(items[0], products) + SumTotals(items[1..], products)
  }

  /** The total of a cart: the sum of its items' totals. */
  function CartTotal(rows: seq<CartItem>, cart: CartId, products: map<ProductId, Product>): (total: int)
    requires Priced(rows, products)
  {
    SumTotals(ItemsOf(rows, cart), products)
  }

  /** Raising an item's quantity by `q` raises its total by `q` times its price. */
  lemma ItemTotalAdditive(item: CartItem, q: int, products: map<ProductId, Product>)
    requires item.product in products
    ensures ItemTotal(item.(quantity := item.quantity + q), products)
            == ItemTotal(item, products) + q * products[item.product].price
  {
    var p := products[item.product].price;
    assert (item.quantity + q) * p == item.quantity * p + q * p;
  }

  /** A cart without items totals 0, whatever the other carts hold. */
  lemma EmptyCartTotalsZero(rows: seq<CartItem>, cart: CartId, products: map<ProductId, Product>)
    requires Priced(rows, products)
    requires forall it :: it in rows ==> it.cart != cart
    ensures CartTotal(rows, cart, products) == 0
  {
  }

  /** Totals of a concatenation add up. */
  lemma {:induction false} SumTotalsAppend(a: seq<CartItem>, b: seq<CartItem>, products: map<ProductId, Product>)
    requires Priced(a, products) && Priced(b, products)
    ensures Priced(a + b, products)
    ensures SumTotals(a + b, products) == SumTotals(a, products) + SumTotals(b, products)
  {
    if a == [] {
      assert a + b == b;
    } else {
      assert (a + b)[1..] == a[1..] + b;
      SumTotalsAppend(a[1..], b, products);
    }
  }

  /** A row appended to the table is appended to its cart's items, and only there. */
  lemma {:induction false} ItemsOfAppend(rows: seq<CartItem>, x: CartItem, cart: CartId)
    ensures ItemsOf(rows + [x], cart) == ItemsOf(rows, cart) + (if x.cart == cart then [x] else [])
  {
    if rows == [] {
      assert rows + [x] == [x];
    } else {
      var head := if rows[0].cart == cart then [rows[0]] else [];
      var tail := if x.cart == cart then [x] else [];
      assert (rows + [x])[0] == rows[0] && (rows + [x])[1..] == rows[1..] + [x];
      assert ItemsOf(rows + [x], cart) == head + ItemsOf(rows[1..] + [x], cart);
      ItemsOfAppend(rows[1..], x, cart);
      assert head + (ItemsOf(rows[1..], cart) + tail) == (head + ItemsOf(rows[1..], cart)) + tail;
    }
  }

  /** Replacing one row by a row whose product is priced keeps the table priced. */
  lemma PricedUpdate(rows: seq<CartItem>, i: nat, x: CartItem, products: map<ProductId, Product>)
    requires i < |rows| && Priced(rows, products) && x.product in products
    ensures Priced(rows[i := x], products)
  {
    forall it | it in rows[i := x] ensures it.product in products {
      var k :| 0 <= k < |rows| && rows[i := x][k] == it;
      if k != i {
        assert rows[k] in rows;
      }
    }
  }

  /** A row's share of a cart's total, 0 when it belongs to another cart. */
  function Share(row: CartItem, cart: CartId, products: map<ProductId, Product>): (share: int)
    requires row.product in products
  {
    if row.cart == cart then ItemTotal(row, products) else 0
  }

  /** A cart's total is its first row's share plus the total over the remaining rows. */
  lemma CartTotalCons(rows: seq<CartItem>, cart: CartId, products: map<ProductId, Product>)
    requires rows != [] && Priced(rows, products)
    ensures Priced(rows[1..], products) && rows[0].product in products
    ensures CartTotal(rows, cart, products)
            == Share(rows[0], cart, products) + CartTotal(rows[1..], cart, products)
  {
    assert rows[0] in rows;
    assert forall it :: it in rows[1..] ==> it in rows;
    var head := if rows[0].cart == cart then [rows[0]] else [];
    assert ItemsOf(rows, cart) == head + ItemsOf(rows[1..], cart);
    SumTotalsAppend(head, ItemsOf(rows[1..], cart), products);
  }

  /** Two tables' totals differ by the difference of their first rows' shares and of their remaining totals. */
  lemma CartTotalConsPair(rows: seq<CartItem>, rows': seq<CartItem>, cart: CartId, products: map<ProductId, Product>)
    requires rows != [] && Priced(rows, products)
    requires rows' != [] && Priced(rows', products)
    ensures Priced(rows[1..], products) && Priced(rows'[1..], products)
    ensures rows[0].product in products && rows'[0].product in products
    ensures CartTotal(rows', cart, products) - CartTotal(rows, cart, products)
            == Share(rows'[0], cart, products) - Share(rows[0], cart, products)
               + CartTotal(rows'[1..], cart, products) - CartTotal(rows[1..], cart, products)
  {
    CartTotalCons(rows, cart, products);
    CartTotalCons(rows', cart, products);
  }

  /**
   * Replacing row `i` by a row of the same cart changes that cart's total by
   * the difference of the two rows' totals and leaves every other cart's total
   * as it was.
   */
  lemma {:induction false} SumTotalsUpdate(rows: seq<CartItem>, i: nat, x: CartItem, cart: CartId,
                                           products: map<ProductId, Product>)
    requires i < |rows| && x.cart == rows[i].cart
    requires Priced(rows, products) && x.product in products
    ensures Priced(rows[i := x], products)
    ensures CartTotal(rows[i := x], cart, products)
            == CartTotal(rows, cart, products)
               + (if x.cart == cart then ItemTotal(x, products) - ItemTotal(rows[i], products) else 0)
  {
    PricedUpdate(rows, i, x, products);
    CartTotalConsPair(rows, rows[i := x], cart, products);
    if i == 0 {
      assert rows[i := x][1..] == rows[1..];
    } else {
      assert rows[i := x][0] == rows[0];
      assert rows[i := x][1..] == rows[1..][i - 1 := x];
      SumTotalsUpdate(rows[1..], i - 1, x, cart, products);
    }
  }

  /** A row appended to the table adds its total to its own cart only. */
  lemma CartTotalAppend(rows: seq<CartItem>, x: CartItem, cart: CartId, products: map<ProductId, Product>)
    requires Priced(rows, products) && x.product in products
    ensures Priced(rows + [x], products)
    ensures CartTotal(rows + [x], cart, products)
            == CartTotal(rows, cart, products) + (if x.cart == cart then ItemTotal(x, products) else 0)
  {
    ItemsOfAppend(rows, x, cart);
    var tail := if x.cart == cart then [x] else [];
    SumTotalsAppend(ItemsOf(rows, cart), tail, products);
    assert SumTotals(tail, products) == if x.cart == cart then ItemTotal(x, products) else 0;
  }

  // ---------------------------------------------------------------------------
  // Looking up the row of a (cart, product) pair
  // ---------------------------------------------------------------------------

  function Key(row: CartItem): (key: (CartId, ProductId))
  {
    (row.cart, row.product)
  }

  /** No two rows share a (cart, product) pair. */
  predicate UniquePairs(rows: seq<CartItem>)
  {
    forall i, j :: 0 <= i < j < |rows| ==> Key(rows[i]) != Key(rows[j])
  }

  /** Row ids are distinct and all below the next id to hand out. */
  predicate IdsBelow(rows: seq<CartItem>, nextId: nat)
  {
    && (forall i :: 0 <= i < |rows| ==> rows[i].id < nextId)
    && (forall i, j :: 0 <= i < j < |rows| ==> rows[i].id != rows[j].id)
  }

  /** The invariant of the cart-items table. */
  predicate TableInvariant(rows: seq<CartItem>, nextId: nat)
  {
    UniquePairs(rows) && IdsBelow(rows, nextId)
  }

  /** The outcomes of a single-row lookup. */
  datatype GetResult = Found(index: nat) | DoesNotExist | MultipleObjectsReturned

  /**
   * The single-row lookup of the row for `(cart, product)`: the one matching
   * row, or no such row, or the error raised when more than one row matches.
   */
  function Get(rows: seq<CartItem>, cart: CartId, product: ProductId): (g: GetResult)
    ensures g.Found? ==> g.index < |rows| && Key(rows[g.index]) == (cart, product)
    ensures g.Found? ==> forall j :: 0 <= j < |rows| && j != g.index ==> Key(rows[j]) != (cart, product)
    ensures g.DoesNotExist? <==> forall j :: 0 <= j < |rows| ==> Key(rows[j]) != (cart, product)
    ensures g.MultipleObjectsReturned? ==>
              exists i, j :: 0 <= i < j < |rows| && Key(rows[i]) == (cart, product) && Key(rows[j]) == (cart, product)
  {
    if rows == [] then DoesNotExist
    else
      var rest := Get(rows[1..], cart, product);
      if Key(rows[0]) == (cart, product) then
        if rest.DoesNotExist? then Found(0)
        else if rest.Found? then
          assert Key(rows[rest.index + 1]) == (cart, product);
          MultipleObjectsReturned
        else
          var i, j :| 0 <= i < j < |rows[1..]| && Key(rows[1..][i]) == (cart, product) && Key(rows[1..][j]) == (cart, product);
          assert Key(rows[i + 1]) == (cart, product);
          MultipleObjectsReturned
      else
        match rest
        case Found(i) => Found(i + 1)
        case DoesNotExist => DoesNotExist
        case MultipleObjectsReturned =>
          var i, j :| 0 <= i < j < |rows[1..]| && Key(rows[1..][i]) == (cart, product) && Key(rows[1..][j]) == (cart, product);
          assert Key(rows[i + 1]) == (cart, product) && Key(rows[j + 1]) == (cart, product);
          MultipleObjectsReturned
  }

  /** On a table without duplicate pairs the lookup never raises. */
  lemma UniqueLookupIsSafe(rows: seq<CartItem>, cart: CartId, product: ProductId)
    requires UniquePairs(rows)
    ensures !Get(rows, cart, product).MultipleObjectsReturned?
  {
  }

  /** On a table without duplicate pairs, the lookup of a row's own pair finds that row. */
  lemma GetFindsTheRow(rows: seq<CartItem>, cart: CartId, product: ProductId, i: nat)
    requires UniquePairs(rows)
    requires i < |rows| && Key(rows[i]) == (cart, product)
    ensures Get(rows, cart, product) == Found(i)
  {
    UniqueLookupIsSafe(rows, cart, product);
  }

  /** Appending a row of a pair no row has keeps the pairs unique. */
  lemma UniquePairsAppend(rows: seq<CartItem>, x: CartItem)
    requires UniquePairs(rows)
    requires forall j :: 0 <= j < |rows| ==> Key(rows[j]) != Key(x)
    ensures UniquePairs(rows + [x])
  {
    var rows' := rows + [x];
    forall i, j | 0 <= i < j < |rows'| ensures Key(rows'[i]) != Key(rows'[j]) {
      assert rows'[i] == rows[i];
    }
  }

  // ---------------------------------------------------------------------------
  // Add-or-merge
  // ---------------------------------------------------------------------------

  const NoSuchProduct: string := "No product with the given id was found."

  /** The product-id check: the id must name a row of the product table. */
  function ValidateProductId(products: map<ProductId, Product>, value: int): (r: Result<ProductId, string>)
    ensures r.Success? <==> value >= 0 && value as ProductId in products
    ensures r.Success? ==> r.value == value
    ensures r.Failure? ==> r.error == NoSuchProduct
  {
    if value >= 0 && value as ProductId in products then Success(value as ProductId)
    else Failure(NoSuchProduct)
  }

  /**
   * The table after adding `quantity` of `product` to `cart`: the existing row
   * for the pair grows by `quantity`, or one new row with id `nextId` is
   * appended; a lookup error leaves the table as it was.
   */
  function Upsert(rows: seq<CartItem>, nextId: nat, cart: CartId, product: ProductId, quantity: int)
    : (rows': seq<CartItem>)
    ensures |rows'| == |rows| + (if Get(rows, cart, product).DoesNotExist? then 1 else 0)
    ensures forall j :: 0 <= j < |rows| && Key(rows[j]) != (cart, product) ==> rows'[j] == rows[j]
    ensures Get(rows, cart, product).DoesNotExist? ==> rows'[|rows|] == CartItem(nextId, cart, product, quantity)
  {
    match Get(rows, cart, product)
    case Found(i) => rows[i := rows[i].(quantity := rows[i].quantity + quantity)]
    case DoesNotExist => rows + [CartItem(nextId, cart, product, quantity)]
    case MultipleObjectsReturned => rows
  }

  /** The next id to hand out after that add: one more when a row was inserted. */
  function NextIdAfter(rows: seq<CartItem>, nextId: nat, cart: CartId, product: ProductId): (next: nat)
    ensures next == nextId + 1 <==> forall j :: 0 <= j < |rows| ==> Key(rows[j]) != (cart, product)
    ensures next == nextId || next == nextId + 1
  {
    if Get(rows, cart, product).DoesNotExist? then nextId + 1 else nextId
  }

  /** An existing row for the pair grows by exactly `quantity`; no row is inserted. */
  lemma UpsertMerges(rows: seq<CartItem>, nextId: nat, cart: CartId, product: ProductId, quantity: int, i: nat)
    requires UniquePairs(rows)
    requires i < |rows| && Key(rows[i]) == (cart, product)
    ensures var rows' := Upsert(rows, nextId, cart, product, quantity);
            && |rows'| == |rows|
            && rows'[i] == rows[i].(quantity := rows[i].quantity + quantity)
            && (forall j :: 0 <= j < |rows| && j != i ==> rows'[j] == rows[j])
    ensures NextIdAfter(rows, nextId, cart, product) == nextId
  {
    UniqueLookupIsSafe(rows, cart, product);
  }

  /** Without a row for the pair, exactly one row with that cart, product and quantity is appended. */
  lemma UpsertInserts(rows: seq<CartItem>, nextId: nat, cart: CartId, product: ProductId, quantity: int)
    requires forall j :: 0 <= j < |rows| ==> Key(rows[j]) != (cart, product)
    ensures Upsert(rows, nextId, cart, product, quantity) == rows + [CartItem(nextId, cart, product, quantity)]
    ensures NextIdAfter(rows, nextId, cart, product) == nextId + 1
  {
  }

  /** Add keeps the table invariant: one row per pair, fresh distinct ids. */
  lemma UpsertPreservesInvariant(rows: seq<CartItem>, nextId: nat, cart: CartId, product: ProductId, quantity: int)
    requires TableInvariant(rows, nextId)
    ensures TableInvariant(Upsert(rows, nextId, cart, product, quantity), NextIdAfter(rows, nextId, cart, product))
  {
    UniqueLookupIsSafe(rows, cart, product);
    var rows' := Upsert(rows, nextId, cart, product, quantity);
    match Get(rows, cart, product)
    case Found(i) =>
      assert forall j :: 0 <= j < |rows| ==> Key(rows'[j]) == Key(rows[j]) && rows'[j].id == rows[j].id;
    case DoesNotExist =>
      assert forall j :: 0 <= j < |rows| ==> rows'[j] == rows[j];
  }

  /** Rows of every other (cart, product) pair are untouched by the add. */
  lemma UpsertKeepsOtherRows(rows: seq<CartItem>, nextId: nat, cart: CartId, product: ProductId, quantity: int)
    requires UniquePairs(rows)
    ensures var rows' := Upsert(rows, nextId, cart, product, quantity);
            forall r :: Key(r) != (cart, product) ==> (r in rows' <==> r in rows)
  {
    UniqueLookupIsSafe(rows, cart, product);
    var rows' := Upsert(rows, nextId, cart, product, quantity);
    forall r | Key(r) != (cart, product) ensures r in rows' <==> r in rows {
      match Get(rows, cart, product)
      case Found(i) =>
        if r in rows {
          var k :| 0 <= k < |rows| && rows[k] == r;
          assert rows'[k] == r;
        }
        if r in rows' {
          var k :| 0 <= k < |rows'| && rows'[k] == r;
          assert rows[k] == r;
        }
      case DoesNotExist =>
    }
  }

  /** Add raises the cart's total by `quantity` times the price, and no other cart's total. */
  lemma UpsertCartTotal(rows: seq<CartItem>, nextId: nat, cart: CartId, product: ProductId, quantity: int,
                        other: CartId, products: map<ProductId, Product>)
    requires UniquePairs(rows) && Priced(rows, products) && product in products
    ensures Priced(Upsert(rows, nextId, cart, product, quantity), products)
    ensures CartTotal(Upsert(rows, nextId, cart, product, quantity), other, products)
            == CartTotal(rows, other, products)
               + (if other == cart then quantity * products[product].price else 0)
  {
    UniqueLookupIsSafe(rows, cart, product);
    var g := Get(rows, cart, product);
    if g.Found? {
      var x := rows[g.index].(quantity := rows[g.index].quantity + quantity);
      assert Upsert(rows, nextId, cart, product, quantity) == rows[g.index := x];
      SumTotalsUpdate(rows, g.index, x, other, products);
      ItemTotalAdditive(rows[g.index], quantity, products);
    } else {
      var x := CartItem(nextId, cart, product, quantity);
      assert Upsert(rows, nextId, cart, product, quantity) == rows + [x];
      CartTotalAppend(rows, x, other, products);
    }
  }

  /** Two adds of one product to one cart that held none leave one row with the summed quantity. */
  lemma AddTwiceMerges(rows: seq<CartItem>, nextId: nat, cart: CartId, product: ProductId, a: int, b: int)
    requires TableInvariant(rows, nextId)
    requires forall j :: 0 <= j < |rows| ==> Key(rows[j]) != (cart, product)
    ensures var rows1 := Upsert(rows, nextId, cart, product, a);
            var rows2 := Upsert(rows1, NextIdAfter(rows, nextId, cart, product), cart, product, b);
            && |rows2| == |rows| + 1
            && rows2[..|rows|] == rows
            && rows2[|rows|] == CartItem(nextId, cart, product, a + b)
            && Get(rows2, cart, product) == Found(|rows|)
  {
    UpsertInserts(rows, nextId, cart, product, a);
    var rows1 := rows + [CartItem(nextId, cart, product, a)];
    UniquePairsAppend(rows, CartItem(nextId, cart, product, a));
    GetFindsTheRow(rows1, cart, product, |rows|);
    var rows2 := rows + [CartItem(nextId, cart, product, a + b)];
    assert rows1[|rows| := rows1[|rows|].(quantity := a + b)] == rows2;
    UniquePairsAppend(rows, CartItem(nextId, cart, product, a + b));
    GetFindsTheRow(rows2, cart, product, |rows|);
    assert rows2[..|rows|] == rows;
  }

  /** The errors the add can report. */
  datatype AddError = ValidationError(message: string) | LookupError

  /** The cart-items table, written by the add-or-merge operation. */
  class CartItemTable {
    var rows: seq<CartItem>
    var nextId: nat

    ghost predicate Valid()
      reads this
    {
      TableInvariant(rows, nextId)
    }

    constructor ()
      ensures Valid() && rows == [] && nextId == 1
    {
      rows := [];
      nextId := 1;
    }

    /**
     * Adds `quantity` of product `productId` to cart `cartId`: checks the id
     * against the product table, then grows the pair's row or inserts one, and
     * returns the row written.
     */
    method Add(products: map<ProductId, Product>, cartId: CartId, productId: int, quantity: int)
      returns (r: Result<CartItem, AddError>)
      requires Valid()
      modifies this
      ensures Valid()
      ensures r.Failure? <==> !(productId >= 0 && productId as ProductId in products)
      ensures r.Failure? ==> r.error == ValidationError(NoSuchProduct)
                             && rows == old(rows) && nextId == old(nextId)
      ensures r.Success? ==>
                && rows == Upsert(old(rows), old(nextId), cartId, productId, quantity)
                && nextId == NextIdAfter(old(rows), old(nextId), cartId, productId)
      ensures r.Success? ==>
                && Get(rows, cartId, productId).Found?
                && rows[Get(rows, cartId, productId).index] == r.value
    {
      var valid := ValidateProductId(products, productId);
      if valid.Failure? {
        return Failure(ValidationError(valid.error));
      }
      var product := valid.value;
      UpsertPreservesInvariant(rows, nextId, cartId, product, quantity);
      UniqueLookupIsSafe(rows, cartId, product);
      var g := Get(rows, cartId, product);
      match g {
        case Found(i) =>
          var item := rows[i].(quantity := rows[i].quantity + quantity);
          rows := rows[i := item];
          assert rows == Upsert(old(rows), old(nextId), cartId, product, quantity);
          r := Success(item);
          assert Key(rows[i]) == (cartId, product);
          UniqueLookupIsSafe(rows, cartId, product);
        case DoesNotExist =>
          var item := CartItem(nextId, cartId, product, quantity);
          rows := rows + [item];
          nextId := nextId + 1;
          assert rows == Upsert(old(rows), old(nextId), cartId, product, quantity);
          r := Success(item);
          assert Key(rows[|rows| - 1]) == (cartId, product);
          UniqueLookupIsSafe(rows, cartId, product);
        case MultipleObjectsReturned =>
          r := Failure(LookupError);
      }
    }
  }

  // ---------------------------------------------------------------------------
  // Cart-item update and review creation
  // ---------------------------------------------------------------------------

  /** The one field a cart-item update may write. */
  const UpdateWritableFields: set<string> := {"quantity"}

  /** A cart-item update: only `quantity` is taken from the payload; the product cannot change. */
  function ApplyCartItemUpdate(item: CartItem, payload: map<string, int>): (r: CartItem)
    ensures r.id == item.id && r.cart == item.cart && r.product == item.product
    ensures "quantity" in payload ==> r.quantity == payload["quantity"]
    ensures "quantity" !in payload ==> r == item
  {
    var data := map k | k in payload && k in UpdateWritableFields :: payload[k];
    if "quantity" in data then item.(quantity := data["quantity"]) else item
  }

  /** The review fields a payload may write; `id` is read-only and the product is not among them. */
  const ReviewWritableFields: set<string> := {"name", "description", "date"}

  /** The validated data of a review payload: its writable fields only. */
  function ReviewData(payload: map<string, string>): (data: map<string, string>)
  {
    map k | k in payload && k in ReviewWritableFields :: payload[k]
  }

  /** Review creation: the product comes from the route's context, the rest from the payload's writable fields. */
  function CreateReview(id: nat, contextProduct: ProductId, payload: map<string, string>): (r: Review)
    ensures r.id == id && r.product == contextProduct
    ensures r.fields.Keys == payload.Keys * ReviewWritableFields
    ensures forall k :: k in r.fields ==> r.fields[k] == payload[k]
  {
    Review(id, contextProduct, ReviewData(payload))
  }

  /** Two payloads that agree on the writable fields create the same review, whatever else they carry. */
  lemma CreateReviewIgnoresOtherFields(id: nat, contextProduct: ProductId, p1: map<string, string>, p2: map<string, string>)
    requires forall k :: k in ReviewWritableFields ==> (k in p1 <==> k in p2)
    requires forall k :: k in ReviewWritableFields && k in p1 ==> p1[k] == p2[k]
    ensures CreateReview(id, contextProduct, p1) == CreateReview(id, contextProduct, p2)
  {
    assert ReviewData(p1) == ReviewData(p2);
  }
}
