/**
 * The shop's fixed product list and the lookup of a product by its numeric code.
 */
module Catalog {
  import opened Wrappers

  /** One catalog entry. `price` is a display string, not a number. */
  datatype Product = Product(id: int, name: string, price: string, description: string)

  /** The catalog, in the order the shop lists it. */
  const Products: seq<Product> := [
    Product(1, "دوره آموزش پایتون", "399,000 تومان",
            "دوره کامل پایتون برای مبتدیان تا پیشرفته."),
    Product(2, "کتاب الکترونیکی بازاریابی", "149,000 تومان",
            "راهنمای عملی برای رشد در فضای مجازی.")
  ]

  /** No two products of `catalog` share a code. */
  predicate UniqueIds(catalog: seq<Product>) {
    forall i, j | 0 <= i < j < |catalog| :: catalog[i].id != catalog[j].id
  }

  /**
   * The first product of `catalog` whose code is `code`, or `None` when there is none:
   * Python's `next((p for p in PRODUCTS if p["id"] == product_id), None)`.
   */
  function FindById(catalog: seq<Product>, code: int): (r: Option<Product>)
    ensures r.None? <==> forall p | p in catalog :: p.id != code
    ensures r.Some? ==> exists i | 0 <= i < |catalog| ::
              catalog[i] == r.value && r.value.id == code &&
              forall j | 0 <= j < i :: catalog[j].id != code
  {
    if catalog == [] then None
    else if catalog[0].id == code then Some(catalog[0])
    else
      var r := FindById(catalog[1..], code);
      assert r.Some? ==> exists i | 0 <= i < |catalog[1..]| ::
        catalog[1..][i] == r.value && r.value.id == code &&
        forall j | 0 <= j < i :: catalog[1..][j].id != code;
      if r.Some? then
        var i :| 0 <= i < |catalog[1..]| && catalog[1..][i] == r.value &&
                 forall j | 0 <= j < i :: catalog[1..][j].id != code;
        assert catalog[i + 1] == r.value;
        assert forall j | 0 <= j < i + 1 :: catalog[j].id != code by {
          forall j | 0 <= j < i + 1 ensures catalog[j].id != code {
            if j > 0 { assert catalog[j] == catalog[1..][j - 1]; }
          }
        }
        r
      else
        r
  }

  /** When codes are unique, a code present in the catalog finds exactly its product. */
  lemma FindByIdExact(catalog: seq<Product>, p: Product)
    requires UniqueIds(catalog) && p in catalog
    ensures FindById(catalog, p.id) == Some(p)
  {
  }

  /** The shop's catalog codes are positive and unique. */
  lemma ProductsWellFormed()
    ensures UniqueIds(Products)
    ensures forall p | p in Products :: p.id > 0
  {
  }
}
