/** The older product list component, built on the single-category product record. */
module LegacyProductList {
  import opened Catalog
  import opened Seqs
  import opened Text

  /** The default value of the component's `category` input. */
  const DefaultCategory := "all"

  function IsActive(p: LegacyProduct): bool {
    p.isActive
  }

  function ActiveWithCategory(category: string, lower: Lowering): LegacyProduct -> bool {
    (p: LegacyProduct) => lower(p.category) == lower(category) && p.isActive
  }

  /** `filteredProducts`: an empty selection, or one that lowers to `"all"`, shows every
      active product; any other shows the active products whose category lowers to the
      same text. Unlike the current list, emptiness is tested before lowering. */
  function FilteredProducts(products: seq<LegacyProduct>, category: string, lower: Lowering): (r: seq<LegacyProduct>)
    ensures IsSubsequence(r, products)
    ensures forall p :: p in r ==> p in products && p.isActive
  {
    if category == "" || lower(category) == "all" then Filter(products, IsActive)
    else Filter(products, ActiveWithCategory(category, lower))
  }

  /** The default selection shows every active product in order, provided lowering
      leaves `"all"` alone. */
  lemma DefaultShowsAllActive(products: seq<LegacyProduct>, lower: Lowering)
    requires lower(DefaultCategory) == "all"
    ensures FilteredProducts(products, DefaultCategory, lower) == Filter(products, IsActive)
    ensures forall p :: p in FilteredProducts(products, DefaultCategory, lower) <==> p in products && p.isActive
  {
  }

  /** Any other selection keeps a product iff it is active and its category matches
      without regard to case, as often as it occurs in the list. */
  lemma SelectionMembership(products: seq<LegacyProduct>, category: string, lower: Lowering)
    requires category != "" && lower(category) != "all"
    ensures forall p :: p in FilteredProducts(products, category, lower)
                        <==> p in products && p.isActive && lower(p.category) == lower(category)
    ensures forall p :: multiset(FilteredProducts(products, category, lower))[p]
                        == if p.isActive && lower(p.category) == lower(category) then multiset(products)[p] else 0
  {
    FilterCount(products, ActiveWithCategory(category, lower));
  }
}
