/**
 * ProductService: read-only catalog queries over the product table. Each is a
 * `Where` / `OrderBy` / `Distinct` / `Select` pipeline; soft-deleted products
 * (`isActive == false`) are invisible to all of them.
 */
module ProductService {
  import opened Wrappers
  import opened Text
  import opened Sorting
  import opened Domain
  import opened Dtos

  /** The `new ProductDTO(...)` projection. */
  function ToProductDto(p: Product): ProductDto
  {
    ProductDto(p.productId, p.name, p.description, p.price, p.stockQuantity, p.category)
  }

  /** `Where(p => p.IsActive)`, keeping table order. */
  function ActiveProducts(ps: seq<Product>): (r: seq<Product>)
    ensures forall p :: p in r <==> p in ps && p.isActive
  {
    if ps == [] then []
    else (if ps[0].isActive then [ps[0]] else []) + ActiveProducts(ps[1..])
  }

  /** `OrderBy(p => p.Name)`. */
  predicate NameLe(a: Product, b: Product)
  {
    StrLe(a.name, b.name)
  }

  lemma NameLeIsTotalPreorder()
    ensures TotalPreorder(NameLe)
  {
    forall a: Product, b: Product
      ensures NameLe(a, b) || NameLe(b, a)
    {
      StrLeTotal(a.name, b.name);
    }
    forall a: Product, b: Product, c: Product | NameLe(a, b) && NameLe(b, c)
      ensures NameLe(a, c)
    {
      StrLeTransitive(a.name, b.name, c.name);
    }
  }

  /** `GetAllProductsAsync`: the active products, sorted by name, projected. */
  function GetAllProducts(ps: seq<Product>): (r: seq<ProductDto>)
    ensures multiset(r) == multiset(SeqMap(ToProductDto, ActiveProducts(ps)))
    ensures forall i, j :: 0 <= i < j < |r| ==> StrLe(r[i].name, r[j].name)
  {
    var sorted := SortBy(ActiveProducts(ps), NameLe);
    NameLeIsTotalPreorder();
    SortBySorted(ActiveProducts(ps), NameLe);
    SeqMapPermutation(ToProductDto, sorted, ActiveProducts(ps));
    SeqMap(ToProductDto, sorted)
  }

  /** Counting DTOs: the row holding `p`'s id is listed once if active, never if not. */
  lemma {:induction false} ActiveDtoCount(ps: seq<Product>, p: Product)
    requires UniqueProductIds(ps)
    requires forall k :: 0 <= k < |ps| && ps[k].productId == p.productId ==> ps[k] == p
    ensures multiset(SeqMap(ToProductDto, ActiveProducts(ps)))[ToProductDto(p)]
         == if p in ps && p.isActive then 1 else 0
    decreases |ps|
  {
    if ps != [] {
      var head := if ps[0].isActive then [ps[0]] else [];
      assert ActiveProducts(ps) == head + ActiveProducts(ps[1..]);
      SeqMapAppend(ToProductDto, head, ActiveProducts(ps[1..]));
      ActiveDtoCount(ps[1..], p);
      assert ps == [ps[0]] + ps[1..];
      if ps[0].productId == p.productId {
        assert p !in ps[1..];
      } else {
        assert ToProductDto(ps[0]) != ToProductDto(p);
      }
    }
  }

  /** Over a table with unique ids, each active product appears exactly once and no inactive one appears. */
  lemma GetAllProductsListsEachActiveOnce(ps: seq<Product>, p: Product)
    requires UniqueProductIds(ps)
    requires p in ps
    ensures multiset(GetAllProducts(ps))[ToProductDto(p)] == if p.isActive then 1 else 0
  {
    ActiveDtoCount(ps, p);
  }

  /** `GetProductByIdAsync`: the first active product with that id, or null. */
  function GetProductById(ps: seq<Product>, id: int): (r: Option<ProductDto>)
    ensures r.None? <==> forall k :: 0 <= k < |ps| ==> !(ps[k].productId == id && ps[k].isActive)
    ensures r.Some? ==> exists k :: 0 <= k < |ps| && ps[k].productId == id && ps[k].isActive && r.value == ToProductDto(ps[k])
  {
    if ps == [] then None
    else if ps[0].productId == id && ps[0].isActive then Some(ToProductDto(ps[0]))
    else
      var r := GetProductById(ps[1..], id);
      assert r.Some? ==> exists k :: 1 <= k < |ps| && ps[k].productId == id && ps[k].isActive && r.value == ToProductDto(ps[k]) by {
        if r.Some? {
          var k :| 0 <= k < |ps[1..]| && ps[1..][k].productId == id && ps[1..][k].isActive && r.value == ToProductDto(ps[1..][k]);
          assert ps[k + 1] == ps[1..][k];
        }
      }
      r
  }

  /** With unique ids: an active row is found with all its catalog fields; a soft-deleted one is not found. */
  lemma GetProductByIdOfRow(ps: seq<Product>, k: nat)
    requires UniqueProductIds(ps)
    requires k < |ps|
    ensures ps[k].isActive ==> GetProductById(ps, ps[k].productId) == Some(ToProductDto(ps[k]))
    ensures !ps[k].isActive ==> GetProductById(ps, ps[k].productId) == None
  {
  }

  /** The case-insensitive category test of `GetProductsByCategoryAsync`, with the activity filter. */
  predicate InCategory(p: Product, category: string)
  {
    EqualsIgnoreCase(p.category, category) && p.isActive
  }

  /** `Where(p => p.Category.ToLower() == category.ToLower() && p.IsActive)`. */
  function ActiveInCategory(ps: seq<Product>, category: string): (r: seq<Product>)
    ensures forall p :: p in r <==> p in ps && InCategory(p, category)
  {
    if ps == [] then []
    else (if InCategory(ps[0], category) then [ps[0]] else []) + ActiveInCategory(ps[1..], category)
  }

  /** `GetProductsByCategoryAsync`: the active products of the category, ignoring case, sorted by name. */
  function GetProductsByCategory(ps: seq<Product>, category: string): (r: seq<ProductDto>)
    ensures multiset(r) == multiset(SeqMap(ToProductDto, ActiveInCategory(ps, category)))
    ensures forall i, j :: 0 <= i < j < |r| ==> StrLe(r[i].name, r[j].name)
    ensures forall i :: 0 <= i < |r| ==> EqualsIgnoreCase(r[i].category, category)
  {
    var matching := ActiveInCategory(ps, category);
    var sorted := SortBy(matching, NameLe);
    NameLeIsTotalPreorder();
    SortBySorted(matching, NameLe);
    SeqMapPermutation(ToProductDto, sorted, matching);
    var r := SeqMap(ToProductDto, sorted);
    assert forall i :: 0 <= i < |r| ==> EqualsIgnoreCase(r[i].category, category) by {
      forall i | 0 <= i < |r|
        ensures EqualsIgnoreCase(r[i].category, category)
      {
        assert sorted[i] in multiset(matching);
        assert sorted[i] in matching;
        assert InCategory(sorted[i], category);
        assert r[i].category == sorted[i].category;
      }
    }
    r
  }

  lemma {:induction false} ActiveInCategoryIgnoresCase(ps: seq<Product>, a: string, b: string)
    requires EqualsIgnoreCase(a, b)
    ensures ActiveInCategory(ps, a) == ActiveInCategory(ps, b)
    decreases |ps|
  {
    if ps != [] {
      ActiveInCategoryIgnoresCase(ps[1..], a, b);
    }
  }

  /** Asking for "electronics" or "ELECTRONICS" gives the same list. */
  lemma GetProductsByCategoryIgnoresCase(ps: seq<Product>, a: string, b: string)
    requires EqualsIgnoreCase(a, b)
    ensures GetProductsByCategory(ps, a) == GetProductsByCategory(ps, b)
  {
    ActiveInCategoryIgnoresCase(ps, a, b);
  }

  /** `Where(p => p.IsActive).Select(p => p.Category)`. */
  function ActiveCategories(ps: seq<Product>): (r: seq<string>)
    ensures forall c :: c in r <==> exists k :: 0 <= k < |ps| && ps[k].isActive && ps[k].category == c
  {
    if ps == [] then []
    else
      var rest := ActiveCategories(ps[1..]);
      assert forall c :: c in rest <==> exists k :: 1 <= k < |ps| && ps[k].isActive && ps[k].category == c by {
        forall c
          ensures c in rest <==> exists k :: 1 <= k < |ps| && ps[k].isActive && ps[k].category == c
        {
          if c in rest {
            var k :| 0 <= k < |ps[1..]| && ps[1..][k].isActive && ps[1..][k].category == c;
            assert ps[k + 1] == ps[1..][k];
          }
          if exists k :: 1 <= k < |ps| && ps[k].isActive && ps[k].category == c {
            var k :| 1 <= k < |ps| && ps[k].isActive && ps[k].category == c;
            assert ps[1..][k - 1] == ps[k];
          }
        }
      }
      (if ps[0].isActive then [ps[0].category] else []) + rest
  }

  /** `Distinct()`: the first occurrence of each value, in order. */
  function Distinct(s: seq<string>): (r: seq<string>)
    ensures forall x :: x in r <==> x in s
    ensures NoDuplicates(r)
  {
    if s == [] then []
    else
      var d := Distinct(s[..|s| - 1]);
      assert s == s[..|s| - 1] + [s[|s| - 1]];
      if s[|s| - 1] in d then d else d + [s[|s| - 1]]
  }

  lemma StrLeIsTotalPreorder()
    ensures TotalPreorder(StrLe)
  {
    forall a: string, b: string
      ensures StrLe(a, b) || StrLe(b, a)
    {
      StrLeTotal(a, b);
    }
    forall a: string, b: string, c: string | StrLe(a, b) && StrLe(b, c)
      ensures StrLe(a, c)
    {
      StrLeTransitive(a, b, c);
    }
  }

  /** `GetCategoriesAsync`: each category of an active product once, in strictly ascending order. */
  function GetCategories(ps: seq<Product>): (r: seq<string>)
    ensures forall c :: c in r <==> exists k :: 0 <= k < |ps| && ps[k].isActive && ps[k].category == c
    ensures forall i, j :: 0 <= i < j < |r| ==> StrLe(r[i], r[j]) && r[i] != r[j]
  {
    var distinct := Distinct(ActiveCategories(ps));
    var r := SortBy(distinct, StrLe);
    StrLeIsTotalPreorder();
    SortBySorted(distinct, StrLe);
    PermutationKeepsNoDuplicates(distinct, r);
    assert forall c :: c in r <==> c in distinct by {
      forall c
        ensures c in r <==> c in distinct
      {
        assert c in r <==> c in multiset(r);
      }
    }
    r
  }
}
