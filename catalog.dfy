/**
 * The catalog's delete handlers: a product may be deleted only while no order
 * item references it, a collection only while it holds no product, and the
 * function-based product view deletes without that guard. Every handler
 * first looks the row up and answers "not found" when it is absent.
 */
module Catalog {
  import opened Models

  /** The bodies the handlers answer with. */
  datatype Body =
    | NoBody
      /** `{"error": message}` */
    | Error(message: string)
      /** `{"error": {"code": code, "message": message}}` */
    | ErrorDetail(code: int, message: string)
      /** `{"process": {"code": code, "message": message}}` */
    | Process(code: int, message: string)
      /** the framework's own body for a failed lookup-or-404 */
    | NotFoundDetail

  /** A handler either answers with a status and a body or returns nothing at all. */
  datatype Outcome = Respond(status: int, body: Body) | NoResponse

  /** The status a response carries when the handler names none. */
  const DefaultStatus: int := 200
  const NoContentStatus: int := 204
  const NotFoundStatus: int := 404

  const ProductInUse: string := "Product cannot be deleted because it associated with an order items ."
  const CollectionNotEmpty: string := "Collection cannot be deleted because it includes one or more  products."

  /** The number a string of decimal digits spells, most significant digit first. */
  function DigitsValue(s: string): (v: int)
  {
    if s == [] then 0 else 10 * DigitsValue(s[..|s| - 1]) + (s[|s| - 1] as int - '0' as int)
  }

  /** The decimal digits of `n`, as an f-string renders an integer. */
  function DecimalString(n: nat): (s: string)
    ensures |s| >= 1
    ensures forall c :: c in s ==> '0' <= c <= '9'
    ensures DigitsValue(s) == n
    ensures |s| > 1 ==> s[0] != '0'
  {
    var digit := ['0' + (n % 10) as char];
    if n < 10 then digit
    else
      var prefix := DecimalString(n / 10);
      assert (prefix + digit)[..|prefix + digit| - 1] == prefix;
      prefix + digit
  }

  /** The number of order items that reference `product`. */
  function OrderItemCount(orderItems: seq<OrderItem>, product: ProductId): (n: nat)
    ensures n <= |orderItems|
    ensures n == 0 <==> forall i :: 0 <= i < |orderItems| ==> orderItems[i].product != product
  {
    if orderItems == [] then 0
    else (if orderItems[0].product == product then 1 else 0) + OrderItemCount(orderItems[1..], product)
  }

  /** The products of a collection. */
  function ProductsOf(products: map<ProductId, Product>, collection: CollectionId): (ids: set<ProductId>)
  {
    set p | p in products && products[p].collection == collection
  }

  /** The number of products of a collection. */
  function ProductCount(products: map<ProductId, Product>, collection: CollectionId): (n: nat)
    ensures n == 0 <==> forall p :: p in products ==> products[p].collection != collection
  {
    var s := ProductsOf(products, collection);
    EmptyCollectionHasNoProduct(products, collection);
    |s|
  }

  lemma EmptyCollectionHasNoProduct(products: map<ProductId, Product>, collection: CollectionId)
    ensures |ProductsOf(products, collection)| == 0 <==>
            forall p :: p in products ==> products[p].collection != collection
  {
    var s := ProductsOf(products, collection);
    if |s| != 0 {
      var p :| p in s;
      assert p in products && products[p].collection == collection;
    } else {
      forall p | p in products ensures products[p].collection != collection {
        assert p in s <==> products[p].collection == collection;
      }
    }
  }

  /** Every order item references a product, and every product a collection. */
  predicate Referential(products: map<ProductId, Product>, collections: map<CollectionId, Collection>,
                        orderItems: seq<OrderItem>)
  {
    && (forall i :: 0 <= i < |orderItems| ==> orderItems[i].product in products)
    && (forall p :: p in products ==> products[p].collection in collections)
  }

  /** Removing a product that no order item references keeps every reference valid. */
  lemma UnreferencedProductRemovable(products: map<ProductId, Product>, collections: map<CollectionId, Collection>,
                                     orderItems: seq<OrderItem>, pk: ProductId)
    requires Referential(products, collections, orderItems)
    requires OrderItemCount(orderItems, pk) == 0
    ensures Referential(products - {pk}, collections, orderItems)
  {
  }

  /** Removing a collection without products keeps every reference valid. */
  lemma EmptyCollectionRemovable(products: map<ProductId, Product>, collections: map<CollectionId, Collection>,
                                 orderItems: seq<OrderItem>, pk: CollectionId)
    requires Referential(products, collections, orderItems)
    requires ProductCount(products, pk) == 0
    ensures Referential(products, collections - {pk}, orderItems)
  {
  }

  /** Removing a product that an order item references leaves that order item pointing at nothing. */
  lemma ReferencedProductRemovalOrphans(products: map<ProductId, Product>, collections: map<CollectionId, Collection>,
                                        orderItems: seq<OrderItem>, pk: ProductId)
    requires OrderItemCount(orderItems, pk) > 0
    ensures !Referential(products - {pk}, collections, orderItems)
  {
  }

  /** The product, collection and order-item tables the handlers work on. */
  class Catalog {
    var products: map<ProductId, Product>
    var collections: map<CollectionId, Collection>
    var orderItems: seq<OrderItem>

    ghost predicate Intact()
      reads this
    {
      Referential(products, collections, orderItems)
    }

    constructor (products: map<ProductId, Product>, collections: map<CollectionId, Collection>,
                 orderItems: seq<OrderItem>)
      ensures this.products == products && this.collections == collections
      ensures this.orderItems == orderItems
    {
      this.products := products;
      this.collections := collections;
      this.orderItems := orderItems;
    }

    /**
     * The guarded product delete of the product detail view and the product
     * view set: refused with an error body, under the default status, while
     * order items reference the product; otherwise the product is removed and
     * the handler returns nothing.
     */
    method DeleteProduct(pk: ProductId) returns (out: Outcome)
      modifies this
      ensures collections == old(collections) && orderItems == old(orderItems)
      ensures pk !in old(products) ==> out == Respond(NotFoundStatus, NotFoundDetail) && products == old(products)
      ensures pk in old(products) && OrderItemCount(orderItems, pk) > 0 ==>
                out == Respond(DefaultStatus, Error(ProductInUse)) && products == old(products)
      ensures pk in old(products) && OrderItemCount(orderItems, pk) == 0 ==>
                out == NoResponse && products == old(products) - {pk}
      ensures old(Intact()) ==> Intact()
    {
      if pk !in products {
        return Respond(NotFoundStatus, NotFoundDetail);
      }
      if OrderItemCount(orderItems, pk) > 0 {
        return Respond(DefaultStatus, Error(ProductInUse));
      }
      if Intact() {
        UnreferencedProductRemovable(products, collections, orderItems, pk);
      }
      products := products - {pk};
      out := NoResponse;
    }

    /**
     * The guarded collection delete of the collection view set and of the
     * collection detail view: refused with an error body, under the default
     * status, while the collection holds products; otherwise removed with
     * "no content".
     */
    method DeleteCollection(pk: CollectionId) returns (out: Outcome)
      modifies this
      ensures products == old(products) && orderItems == old(orderItems)
      ensures pk !in old(collections) ==> out == Respond(NotFoundStatus, NotFoundDetail) && collections == old(collections)
      ensures pk in old(collections) && ProductCount(products, pk) > 0 ==>
                out == Respond(DefaultStatus, Error(CollectionNotEmpty)) && collections == old(collections)
      ensures pk in old(collections) && ProductCount(products, pk) == 0 ==>
                out == Respond(NoContentStatus, NoBody) && collections == old(collections) - {pk}
      ensures old(Intact()) ==> Intact()
    {
      if pk !in collections {
        return Respond(NotFoundStatus, NotFoundDetail);
      }
      if ProductCount(products, pk) > 0 {
        return Respond(DefaultStatus, Error(CollectionNotEmpty));
      }
      if Intact() {
        EmptyCollectionRemovable(products, collections, orderItems, pk);
      }
      collections := collections - {pk};
      out := Respond(NoContentStatus, NoBody);
    }

    /**
     * The DELETE branch of the function-based product detail view: an absent
     * id answers 404 with a message naming it; a present product is removed
     * whatever references it, with "no content" and a message naming the id.
     */
    method DeleteProductUnguarded(id: ProductId) returns (out: Outcome)
      modifies this
      ensures collections == old(collections) && orderItems == old(orderItems)
      ensures id !in old(products) ==>
                && products == old(products)
                && out == Respond(NotFoundStatus, ErrorDetail(404, "there is no such table with the " + DecimalString(id) + "."))
      ensures id in old(products) ==>
                && products == old(products) - {id}
                && out == Respond(NoContentStatus, Process(204, "Product whose id was " + DecimalString(id) + " has been deleted"))
      ensures id in old(products) && OrderItemCount(orderItems, id) > 0 ==> !Intact()
    {
      if id !in products {
        return Respond(NotFoundStatus, ErrorDetail(404, "there is no such table with the " + DecimalString(id) + "."));
      }
      if OrderItemCount(orderItems, id) > 0 {
        ReferencedProductRemovalOrphans(products, collections, orderItems, id);
      }
      products := products - {id};
      out := Respond(NoContentStatus, Process(204, "Product whose id was " + DecimalString(id) + " has been deleted"));
    }
  }
}
