/** The current product list: picks a category from its input or the route, then shows
    the active products carrying that category, compared without regard to case. */
module ProductList {
  import opened Wrappers
  import opened Catalog
  import opened Seqs
  import opened Text

  /** The category name that stands for "no restriction". */
  const All := "all"

  /** `currentCategory`: the component input when it is a non-empty string, otherwise the
      route's `defaultCategory` when that is non-empty, otherwise `"all"`. */
  function CurrentCategory(input: Option<string>, routeDefault: Option<string>): (c: string)
    ensures c != ""
    ensures Truthy(input) ==> c == input.value
    ensures !Truthy(input) && Truthy(routeDefault) ==> c == routeDefault.value
    ensures !Truthy(input) && !Truthy(routeDefault) ==> c == All
  {
    if Truthy(input) then input.value
    else if Truthy(routeDefault) then routeDefault.value
    else All
  }

  function IsActive(p: Product): bool {
    p.isActive
  }

  /** Some category of `p` lowers to the same text as `category` does. */
  predicate HasCategory(p: Product, category: string, lower: Lowering) {
    exists i :: 0 <= i < |p.categories| && lower(p.categories[i]) == lower(category)
  }

  function ActiveInCategory(category: string, lower: Lowering): Product -> bool {
    (p: Product) => HasCategory(p, category, lower) && p.isActive
  }

  /** `filteredProducts` for the selection `current`. The code lowers the selection once
      and then lowers the lowered text again inside the comparison; the model keeps both. */
  function FilteredProducts(products: seq<Product>, current: string, lower: Lowering): (r: seq<Product>)
    ensures IsSubsequence(r, products)
    ensures forall p :: p in r ==> p in products && p.isActive
  {
    var category := lower(current);
    if category == "" || category == All then Filter(products, IsActive)
    else Filter(products, ActiveInCategory(category, lower))
  }

  /** With no restriction the list is exactly the active products, in list order. */
  lemma UnrestrictedShowsAllActive(products: seq<Product>, current: string, lower: Lowering)
    requires lower(current) == "" || lower(current) == All
    ensures FilteredProducts(products, current, lower) == Filter(products, IsActive)
    ensures forall p :: p in FilteredProducts(products, current, lower) <==> p in products && p.isActive
  {
  }

  /** Otherwise a product is shown iff it is active and one of its categories matches
      the selection without regard to case, as often as it occurs in the list. */
  lemma RestrictedMembership(products: seq<Product>, current: string, lower: Lowering)
    requires lower(current) != "" && lower(current) != All
    ensures forall p :: p in FilteredProducts(products, current, lower)
                        <==> p in products && p.isActive && HasCategory(p, lower(current), lower)
    ensures forall p :: multiset(FilteredProducts(products, current, lower))[p]
                        == if p.isActive && HasCategory(p, lower(current), lower) then multiset(products)[p] else 0
  {
    FilterCount(products, ActiveInCategory(lower(current), lower));
  }

  /** Selections that lower to the same text show the same products. */
  lemma CaseInsensitiveSelection(products: seq<Product>, a: string, b: string, lower: Lowering)
    requires lower(a) == lower(b)
    ensures FilteredProducts(products, a, lower) == FilteredProducts(products, b, lower)
  {
  }

  /** With neither an input nor a route default, every active product is shown,
      provided lowering leaves `"all"` alone. */
  lemma DefaultSelectionShowsAllActive(products: seq<Product>, lower: Lowering)
    requires lower(All) == All
    ensures FilteredProducts(products, CurrentCategory(None, None), lower) == Filter(products, IsActive)
  {
  }
}
