/** The catalogue queries and edits: `getProducts` (category filter, search,
    sort), `getProduct`, `getCategories`, `addReview` and `updateProduct`'s
    field copy, together with the seeded catalogue. */
module Catalogue {
  import opened Model
  import opened Seqs
  import opened Text

  /** The twelve products the store starts with (prices in cents, ratings in tenths). */
  const SeedCatalogue: seq<Product> := [
    Product(1, "Premium Wireless Headphones", 29999, "Electronics",
      "https://images.unsplash.com/photo-1505740420928-5e560c06d30e?w=500",
      "High-quality wireless headphones with noise cancellation", 50, 45, 128),
    Product(2, "Smart Watch Pro", 39999, "Electronics",
      "https://images.unsplash.com/photo-1523275335684-37898b6baf30?w=500",
      "Advanced smartwatch with health tracking features", 30, 47, 256),
    Product(3, "Designer Backpack", 8999, "Fashion",
      "https://images.unsplash.com/photo-1553062407-98eeb64c6a62?w=500",
      "Stylish and durable backpack for everyday use", 100, 43, 89),
    Product(4, "Running Shoes Elite", 14999, "Sports",
      "https://images.unsplash.com/photo-1542291026-7eec264c27ff?w=500",
      "Professional running shoes with advanced cushioning", 75, 46, 342),
    Product(5, "Laptop Stand Aluminum", 5999, "Accessories",
      "https://images.unsplash.com/photo-1527864550417-7fd91fc51a46?w=500",
      "Ergonomic laptop stand made from premium aluminum", 120, 44, 67),
    Product(6, "Mechanical Keyboard RGB", 17999, "Electronics",
      "https://images.unsplash.com/photo-1587829741301-dc798b83add3?w=500",
      "Gaming mechanical keyboard with customizable RGB lighting", 45, 48, 423),
    Product(7, "Yoga Mat Premium", 4999, "Sports",
      "https://images.unsplash.com/photo-1601925260368-ae2f83cf8b7f?w=500",
      "Extra thick yoga mat with non-slip surface", 200, 45, 156),
    Product(8, "Coffee Maker Deluxe", 12999, "Home",
      "https://images.unsplash.com/photo-1517668808822-9ebb02f2a0e6?w=500",
      "Programmable coffee maker with thermal carafe", 60, 42, 234),
    Product(9, "Sunglasses Aviator", 15999, "Fashion",
      "https://images.unsplash.com/photo-1572635196237-14b3f281503f?w=500",
      "Classic aviator sunglasses with UV protection", 85, 46, 178),
    Product(10, "Portable Charger 20000mAh", 3999, "Electronics",
      "https://images.unsplash.com/photo-1609091839311-d5365f9ff1c5?w=500",
      "High-capacity portable charger with fast charging", 150, 47, 512),
    Product(11, "Desk Lamp LED", 6999, "Home",
      "https://images.unsplash.com/photo-1507473885765-e6ed057f782c?w=500",
      "Adjustable LED desk lamp with touch controls", 90, 44, 145),
    Product(12, "Water Bottle Insulated", 3499, "Sports",
      "https://images.unsplash.com/photo-1602143407151-7111542de6e8?w=500",
      "Stainless steel insulated water bottle keeps drinks cold for 24h", 180, 48, 289)
  ]

  /** A query field counts only when present and non-empty (JavaScript truthiness). */
  predicate Given(field: Option<string>) { field.Some? && field.value != [] }

  /** The category filter: none when the category is absent, empty or `All`. */
  predicate InCategory(p: Product, category: Option<string>)
  {
    !Given(category) || category.value == "All" || p.category == category.value
  }

  /** The search filter: the lower-cased search text occurs in the lower-cased
      name or description; no filter when the search text is absent or empty. */
  predicate MatchesSearch(p: Product, search: Option<string>)
  {
    !Given(search)
    || Contains(ToLower(p.name), ToLower(search.value))
    || Contains(ToLower(p.description), ToLower(search.value))
  }

  /** Both filters of `getProducts` at once. */
  predicate Matches(p: Product, category: Option<string>, search: Option<string>)
  {
    InCategory(p, category) && MatchesSearch(p, search)
  }

  /** The products of `ps` passing both filters: the category filter runs
      first, then the search filter, and together they are one filter by
      both, so the answer keeps catalogue order and every matching product
      as often as it occurs. */
  function Matching(ps: seq<Product>, category: Option<string>, search: Option<string>): (r: seq<Product>)
    ensures forall i :: 0 <= i < |r| ==> r[i] in ps && InCategory(r[i], category) && MatchesSearch(r[i], search)
    ensures forall i :: 0 <= i < |ps| && InCategory(ps[i], category) && MatchesSearch(ps[i], search) ==> ps[i] in r
    ensures r == Filter(ps, (p: Product) => Matches(p, category, search))
  {
    var both := (p: Product) => Matches(p, category, search);
    var inCategory := (p: Product) => category.Some? && p.category == category.value;
    var inSearch := (p: Product) => MatchesSearch(p, search);
    if Given(category) && category.value != "All" then
      if Given(search) then
        FilterFilter(ps, inCategory, inSearch, both);
        Filter(Filter(ps, inCategory), inSearch)
      else
        FilterSame(ps, inCategory, both);
        Filter(ps, inCategory)
    else if Given(search) then
      FilterSame(ps, inSearch, both);
      Filter(ps, inSearch)
    else
      FilterAll(ps, both);
      ps
  }

  predicate KnownSort(sort: Option<string>)
  {
    sort.Some? && sort.value in {"price-low", "price-high", "rating", "popular"}
  }

  /** The `sort` switch: `price-low` ascending price, `price-high` descending
      price, `rating` descending rating, `popular` descending review count;
      any other value (or none) leaves the order alone. Every sort is stable. */
  function SortProducts(ps: seq<Product>, sort: Option<string>): (r: seq<Product>)
    ensures multiset(r) == multiset(ps)
    ensures sort == Some("price-low") ==> forall i, j :: 0 <= i < j < |r| ==> r[i].price <= r[j].price
    ensures sort == Some("price-high") ==> forall i, j :: 0 <= i < j < |r| ==> r[j].price <= r[i].price
    ensures sort == Some("rating") ==> forall i, j :: 0 <= i < j < |r| ==> r[j].rating <= r[i].rating
    ensures sort == Some("popular") ==> forall i, j :: 0 <= i < j < |r| ==> r[j].reviews <= r[i].reviews
    ensures !KnownSort(sort) ==> r == ps
  {
    if sort == Some("price-low") then
      var key := (p: Product) => -p.price;
      SortDescSorts(ps, key);
      SortDesc(ps, key)
    else if sort == Some("price-high") then
      var key := (p: Product) => p.price;
      SortDescSorts(ps, key);
      SortDesc(ps, key)
    else if sort == Some("rating") then
      var key := (p: Product) => p.rating;
      SortDescSorts(ps, key);
      SortDesc(ps, key)
    else if sort == Some("popular") then
      var key := (p: Product) => p.reviews;
      SortDescSorts(ps, key);
      SortDesc(ps, key)
    else ps
  }

  /** `getProducts`: the matching products, sorted as asked. */
  function QueryProducts(ps: seq<Product>, category: Option<string>, search: Option<string>, sort: Option<string>): (r: seq<Product>)
    ensures forall p :: p in r <==> p in ps && InCategory(p, category) && MatchesSearch(p, search)
    ensures multiset(r) == multiset(Matching(ps, category, search))
    ensures r == SortProducts(Matching(ps, category, search), sort)
    ensures !KnownSort(sort) ==> r == Matching(ps, category, search)
  {
    var m := Matching(ps, category, search);
    var r := SortProducts(m, sort);
    assert forall p :: p in r <==> p in m by {
      forall p ensures p in r <==> p in m {
        assert p in r <==> p in multiset(r);
        assert p in m <==> p in multiset(m);
      }
    }
    r
  }

  /** With no filter and no sort, `getProducts` answers the whole catalogue in order. */
  lemma QueryAllIsCatalogue(ps: seq<Product>, category: Option<string>)
    requires category.None? || category == Some("All") || category == Some("")
    ensures QueryProducts(ps, category, None, None) == ps
  {
  }

  /** Searching is blind to case: two search texts with the same lower-case
      form select the same products. */
  lemma SearchIgnoresCase(ps: seq<Product>, category: Option<string>, s: string, t: string, sort: Option<string>)
    requires ToLower(s) == ToLower(t) && s != [] && t != []
    ensures forall p :: p in QueryProducts(ps, category, Some(s), sort) <==> p in QueryProducts(ps, category, Some(t), sort)
  {
  }

  /** `getProduct`: the first catalogue product with id `id`. */
  function FindProduct(ps: seq<Product>, id: int): (r: Option<Product>)
    ensures r.None? <==> forall i :: 0 <= i < |ps| ==> ps[i].id != id
    ensures r.Some? ==> r.value in ps && r.value.id == id
    ensures r.Some? ==> r.value == ps[ProductIndex(ps, id)]
  {
    var k := ProductIndex(ps, id);
    if k < 0 then None else Some(ps[k])
  }

  function ProductIndex(ps: seq<Product>, id: int): int
  {
    FirstIndex(ps, (p: Product) => p.id == id)
  }

  /** The position of the first occurrence of `x` in `s`, or -1. */
  function IndexOf(s: seq<string>, x: string): int
  {
    FirstIndex(s, (y: string) => y == x)
  }

  /** The distinct strings of `s` (`new Set(s)`): each once, listed in the
      order of their first occurrences. */
  function Distinct(s: seq<string>): (r: seq<string>)
    ensures forall x :: x in r <==> x in s
    ensures forall i, j :: 0 <= i < j < |r| ==> r[i] != r[j]
    ensures forall i, j :: 0 <= i < j < |r| ==> IndexOf(s, r[i]) < IndexOf(s, r[j])
  {
    if s == [] then []
    else
      var p, x := s[..|s| - 1], s[|s| - 1];
      var d := Distinct(p);
      assert s == p + [x];
      FirstSeenKept(p, x, d);
      if x in d then d
      else
        FirstIndexAppend(p, x, (y: string) => y == x);
        d + [x]
  }

  /** Appending `x` to `p` leaves the first occurrence of every element of
      `p` where it was. */
  lemma FirstSeenKept(p: seq<string>, x: string, d: seq<string>)
    requires forall y :: y in d ==> y in p
    ensures forall i :: 0 <= i < |d| ==> IndexOf(p + [x], d[i]) == IndexOf(p, d[i]) >= 0
  {
    forall i | 0 <= i < |d| ensures IndexOf(p + [x], d[i]) == IndexOf(p, d[i]) >= 0 {
      var y := d[i];
      FirstIndexAppend(p, x, (z: string) => z == y);
      assert y in p;
      var k :| 0 <= k < |p| && p[k] == y;
    }
  }

  /** A sequence with no repeats goes through `Distinct` unchanged: the set keeps first-seen order. */
  lemma {:induction false} DistinctKeepsOrder(s: seq<string>)
    requires forall i, j :: 0 <= i < j < |s| ==> s[i] != s[j]
    ensures Distinct(s) == s
  {
    if s != [] {
      DistinctKeepsOrder(s[..|s| - 1]);
      assert s[|s| - 1] !in s[..|s| - 1];
      assert s[..|s| - 1] + [s[|s| - 1]] == s;
    }
  }

  function CategoryOf(ps: seq<Product>): seq<string>
  {
    seq(|ps|, i requires 0 <= i < |ps| => ps[i].category)
  }

  /** The position of the first product of category `c`, or -1. */
  function CategoryIndex(ps: seq<Product>, c: string): int
  {
    FirstIndex(ps, (p: Product) => p.category == c)
  }

  /** The first product of a category and the first occurrence of its name
      in the list of categories are at the same position. */
  lemma CategoryIndexIsIndexOf(ps: seq<Product>, c: string)
    ensures CategoryIndex(ps, c) == IndexOf(CategoryOf(ps), c)
  {
    var names := CategoryOf(ps);
    var a, b := CategoryIndex(ps, c), IndexOf(names, c);
    assert forall i :: 0 <= i < |ps| ==> (names[i] == c <==> ps[i].category == c);
    if a < 0 {
      assert forall i :: 0 <= i < |names| ==> names[i] != c;
    } else {
      assert names[a] == c;
      assert ps[b].category == c;
    }
  }

  /** `getCategories`: `All` followed by each category of the catalogue once,
      in the order in which the catalogue first lists them. */
  function Categories(ps: seq<Product>): (r: seq<string>)
    ensures |r| >= 1 && r[0] == "All"
    ensures forall c :: c in r[1..] <==> exists i :: 0 <= i < |ps| && ps[i].category == c
    ensures forall i, j :: 1 <= i < j < |r| ==> r[i] != r[j]
    ensures forall i, j :: 1 <= i < j < |r| ==> CategoryIndex(ps, r[i]) < CategoryIndex(ps, r[j])
  {
    var names := CategoryOf(ps);
    assert forall c :: c in names <==> exists i :: 0 <= i < |ps| && ps[i].category == c by {
      forall c ensures c in names <==> exists i :: 0 <= i < |ps| && ps[i].category == c {
        if c in names {
          var i :| 0 <= i < |names| && names[i] == c;
          assert ps[i].category == c;
        }
        if exists i :: 0 <= i < |ps| && ps[i].category == c {
          var i :| 0 <= i < |ps| && ps[i].category == c;
          assert names[i] == c;
        }
      }
    }
    var r := ["All"] + Distinct(names);
    assert r[1..] == Distinct(names);
    forall i | 1 <= i < |r| ensures CategoryIndex(ps, r[i]) == IndexOf(names, r[i]) {
      CategoryIndexIsIndexOf(ps, r[i]);
    }
    r
  }

  /** `addReview`: the review count of the product at `k` goes up by one. */
  function Reviewed(ps: seq<Product>, k: nat): (r: seq<Product>)
    requires k < |ps|
    ensures |r| == |ps|
    ensures r[k] == ps[k].(reviews := ps[k].reviews + 1)
    ensures forall i :: 0 <= i < |ps| && i != k ==> r[i] == ps[i]
  {
    ps[k := ps[k].(reviews := ps[k].reviews + 1)]
  }

  /** `Object.assign(product, data)`: every field present in the patch replaces
      the product's; the id is the one the product was found by, so it stays. */
  function Patched(p: Product, patch: ProductPatch): (r: Product)
    ensures r.id == p.id
    ensures patch.name.Some? ==> r.name == patch.name.value
    ensures patch.name.None? ==> r.name == p.name
    ensures patch.price.Some? ==> r.price == patch.price.value
    ensures patch.price.None? ==> r.price == p.price
    ensures patch.category.Some? ==> r.category == patch.category.value
    ensures patch.category.None? ==> r.category == p.category
    ensures patch.image.Some? ==> r.image == patch.image.value
    ensures patch.image.None? ==> r.image == p.image
    ensures patch.description.Some? ==> r.description == patch.description.value
    ensures patch.description.None? ==> r.description == p.description
    ensures patch.stock.Some? ==> r.stock == patch.stock.value
    ensures patch.stock.None? ==> r.stock == p.stock
    ensures patch.rating.Some? ==> r.rating == patch.rating.value
    ensures patch.rating.None? ==> r.rating == p.rating
    ensures patch.reviews.Some? ==> r.reviews == patch.reviews.value
    ensures patch.reviews.None? ==> r.reviews == p.reviews
  {
    Product(
      p.id,
      if patch.name.Some? then patch.name.value else p.name,
      if patch.price.Some? then patch.price.value else p.price,
      if patch.category.Some? then patch.category.value else p.category,
      if patch.image.Some? then patch.image.value else p.image,
      if patch.description.Some? then patch.description.value else p.description,
      if patch.stock.Some? then patch.stock.value else p.stock,
      if patch.rating.Some? then patch.rating.value else p.rating,
      if patch.reviews.Some? then patch.reviews.value else p.reviews)
  }

  /** Copying the same fields twice changes nothing the first copy did not. */
  lemma PatchIdempotent(p: Product, patch: ProductPatch)
    ensures Patched(Patched(p, patch), patch) == Patched(p, patch)
    ensures Patched(p, ProductPatch(None, None, None, None, None, None, None, None)) == p
  {
  }

  /** Field by field, the later of two patches wins where it sends a value. */
  function Later<T>(a: Option<T>, b: Option<T>): (r: Option<T>)
    ensures r.Some? <==> a.Some? || b.Some?
  {
    if b.Some? then b else a
  }

  /** The patch that sends what `b` sends and otherwise what `a` sends. */
  function Merge(a: ProductPatch, b: ProductPatch): ProductPatch
  {
    ProductPatch(Later(a.name, b.name), Later(a.price, b.price), Later(a.category, b.category),
      Later(a.image, b.image), Later(a.description, b.description), Later(a.stock, b.stock),
      Later(a.rating, b.rating), Later(a.reviews, b.reviews))
  }

  /** Two successive `updateProduct` calls leave the product as one call with
      the merged patch would. */
  lemma PatchCompose(p: Product, a: ProductPatch, b: ProductPatch)
    ensures Patched(Patched(p, a), b) == Patched(p, Merge(a, b))
  {
  }
}
