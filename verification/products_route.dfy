/**
 The catalog endpoint (app/api/products/route.ts): a static table of three
 products, a GET handler that looks a product up by an optional `id` query
 parameter, and an OPTIONS handler that advertises GET as the only method.
 */
module ProductsRoute {
  import opened Wrappers

  datatype Product = Product(id: string, name: string, price: int, description: string)

  /** The JSON body of a response, or no body at all. */
  datatype Body =
    | ProductJson(product: Product)
    | ProductListJson(products: seq<Product>)
    | ErrorJson(error: string)
    | NoBody

  /** An HTTP response: status, body and the `Allow` header when one is set. */
  datatype Response = Response(status: int, body: Body, allow: Option<string>)

  const Ok: int := 200
  const NoContent: int := 204
  const NotFound: int := 404
  const NotFoundMessage: string := "Product not found"

  /** The static product table, in the order the handler serves it. */
  const Products: seq<Product> := [
    Product("1", "Laptop", 1200, "High-performance laptop"),
    Product("2", "Phone", 800, "Smartphone with excellent features"),
    Product("3", "Headphones", 150, "Noise-cancelling headphones")
  ]

  predicate HasProduct(table: seq<Product>, id: string) {
    exists i :: 0 <= i < |table| && table[i].id == id
  }

  predicate DistinctIds(table: seq<Product>) {
    forall i, j :: 0 <= i < j < |table| ==> table[i].id != table[j].id
  }

  /** The first product in table order whose id is `id`, or nothing when no
      product has it. */
  function Find(table: seq<Product>, id: string): (r: Option<Product>)
    ensures r.None? <==> !HasProduct(table, id)
    ensures r.Some? ==> exists i :: 0 <= i < |table| && table[i] == r.value && r.value.id == id &&
                                    forall j :: 0 <= j < i ==> table[j].id != id
    decreases |table|
  {
    if |table| == 0 then None
    else if table[0].id == id then Some(table[0])
    else
      var r := Find(table[1..], id);
      assert HasProduct(table[1..], id) ==> HasProduct(table, id);
      assert HasProduct(table, id) ==> HasProduct(table[1..], id) by {
        if HasProduct(table, id) {
          var i :| 0 <= i < |table| && table[i].id == id;
          assert table[1..][i - 1] == table[i];
        }
      }
      if r.Some? then
        assert exists i :: 0 <= i < |table| && table[i] == r.value && r.value.id == id &&
                           forall j :: 0 <= j < i ==> table[j].id != id by {
          var i :| 0 <= i < |table[1..]| && table[1..][i] == r.value && r.value.id == id &&
                   forall j :: 0 <= j < i ==> table[1..][j].id != id;
          assert table[i + 1] == r.value;
          assert forall j :: 0 <= j < i + 1 ==> table[j].id != id by {
            forall j | 0 <= j < i + 1
              ensures table[j].id != id
            {
              if j > 0 { assert table[j] == table[1..][j - 1]; }
            }
          }
        }
        r
      else r
  }

  /** `searchParams.get('id')` is truthy: present and not the empty string. */
  predicate Truthy(id: Option<string>) {
    id.Some? && |id.value| > 0
  }

  /** The GET handler, given the `id` query parameter (None when absent). */
  function Get(id: Option<string>): (r: Response)
    ensures !Truthy(id) ==> r == Response(Ok, ProductListJson(Products), None)
    ensures Truthy(id) && HasProduct(Products, id.value) ==>
              r.status == Ok && r.body.ProductJson? && r.body.product in Products &&
              r.body.product.id == id.value && r.allow.None?
    ensures Truthy(id) && !HasProduct(Products, id.value) ==>
              r == Response(NotFound, ErrorJson(NotFoundMessage), None)
  {
    if Truthy(id) then
      match Find(Products, id.value)
      case Some(p) => Response(Ok, ProductJson(p), None)
      case None => Response(NotFound, ErrorJson(NotFoundMessage), None)
    else Response(Ok, ProductListJson(Products), None)
  }

  /** The OPTIONS handler: no content, `Allow: GET`. */
  function Options(): (r: Response)
    ensures r.status == NoContent && r.body == NoBody && r.allow == Some("GET")
  {
    Response(NoContent, NoBody, Some("GET"))
  }

  /** No two catalog products share an id. */
  lemma CatalogIdsDistinct()
    ensures DistinctIds(Products)
  {
  }

  /** In a table with distinct ids, the lookup of a present id returns exactly
      the product carrying it. */
  lemma {:induction false} FindDistinct(table: seq<Product>, k: int)
    requires DistinctIds(table) && 0 <= k < |table|
    ensures Find(table, table[k].id) == Some(table[k])
    decreases |table|
  {
    if k > 0 {
      assert table[0].id != table[k].id;
      assert DistinctIds(table[1..]);
      assert table[1..][k - 1] == table[k];
      FindDistinct(table[1..], k - 1);
    }
  }

  /** Asking for any catalog product by its id answers with that product. */
  lemma GetEveryProduct(k: int)
    requires 0 <= k < |Products|
    ensures Get(Some(Products[k].id)) == Response(Ok, ProductJson(Products[k]), None)
  {
    CatalogIdsDistinct();
    FindDistinct(Products, k);
  }

  /** Two sample lookups: id 2 is the phone at 800; id 99 is not found. */
  lemma GetExamples()
    ensures Get(Some("2")) == Response(Ok, ProductJson(Product("2", "Phone", 800, "Smartphone with excellent features")), None)
    ensures Get(Some("99")) == Response(NotFound, ErrorJson("Product not found"), None)
    ensures Get(Some("")) == Get(None)
  {
    GetEveryProduct(1);
    assert !HasProduct(Products, "99") by {
      forall i | 0 <= i < |Products|
        ensures Products[i].id != "99"
      {
        assert |Products[i].id| == 1;
      }
    }
  }
}
