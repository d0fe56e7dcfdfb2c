/** Repositories/ProductRepository.cs and Repositories/CategoryRepository.cs
    over an in-memory store: each repository holds its aggregates by id and
    counts its SaveChanges calls. Database constraints, query filters and
    change tracking are not part of this model. */
module Repositories {

  import opened Common
  import opened Identifiers
  import Text
  import Products
  import Categories

  class ProductRepository {
    var products: map<ProductId, Products.Product>
    var saveCount: nat

    constructor ()
      ensures products == map[] && saveCount == 0
    {
      products, saveCount := map[], 0;
    }

    /** The skus of the stored products. */
    function Skus(): set<string>
      reads this
    {
      set id | id in products :: products[id].sku
    }

    /** GetByIdAsync: the product stored under `id`, if any. */
    method GetById(id: ProductId) returns (r: Option<Products.Product>)
      ensures r.Some? <==> id in products
      ensures r.Some? ==> r.value == products[id]
    {
      if id in products {
        r := Some(products[id]);
      } else {
        r := None;
      }
    }

    /** GetBySkuAsync: a stored product whose sku equals the argument
        upper-cased (and not trimmed), if there is one. */
    method GetBySku(sku: string) returns (r: Option<Products.Product>)
      ensures r.None? <==> Text.ToUpper(sku) !in Skus()
      ensures r.Some? ==> r.value in products.Values && r.value.sku == Text.ToUpper(sku)
    {
      var target := Text.ToUpper(sku);
      var unseen := products.Keys;
      while unseen != {}
        invariant unseen <= products.Keys
        invariant forall id :: id in products.Keys - unseen ==> products[id].sku != target
        decreases |unseen|
      {
        var id :| id in unseen;
        if products[id].sku == target {
          return Some(products[id]);
        }
        unseen := unseen - {id};
      }
      r := None;
    }

    /** AddAsync: the product is stored under its id. */
    method Add(p: Products.Product)
      modifies this
      ensures products == old(products)[p.id := p] && saveCount == old(saveCount)
    {
      products := products[p.id := p];
    }

    /** SaveChangesAsync: the store is committed. */
    method SaveChanges()
      modifies this
      ensures products == old(products) && saveCount == old(saveCount) + 1
    {
      saveCount := saveCount + 1;
    }
  }

  class CategoryRepository {
    var categories: map<CategoryId, Categories.Category>
    var saveCount: nat

    constructor ()
      ensures categories == map[] && saveCount == 0
    {
      categories, saveCount := map[], 0;
    }

    /** GetByIdAsync: the category stored under `id`, if any. */
    method GetById(id: CategoryId) returns (r: Option<Categories.Category>)
      ensures r.Some? <==> id in categories
      ensures r.Some? ==> r.value == categories[id]
    {
      if id in categories {
        r := Some(categories[id]);
      } else {
        r := None;
      }
    }

    method Add(c: Categories.Category)
      modifies this
      ensures categories == old(categories)[c.id := c] && saveCount == old(saveCount)
    {
      categories := categories[c.id := c];
    }

    method SaveChanges()
      modifies this
      ensures categories == old(categories) && saveCount == old(saveCount) + 1
    {
      saveCount := saveCount + 1;
    }
  }
}
