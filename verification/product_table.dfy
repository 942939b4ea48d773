/** The admin product table's ordering: newest first by last update (or insertion when
    never updated), undated products last, ties in their incoming order. */
module ProductTable {
  import opened Wrappers
  import opened Catalog
  import opened Seqs
  import opened StableSort

  /** The date a product is ranked by: `updateDate` when present, whatever
      `insertDate` says, otherwise `insertDate`. */
  function RecencyKey(p: Product): (k: Option<int>)
    ensures p.updateDate.Some? ==> k == p.updateDate
    ensures k.None? <==> p.updateDate.None? && p.insertDate.None?
  {
    if p.updateDate.Some? then p.updateDate else p.insertDate
  }

  /** The comparator returns a negative number exactly when `a` has a date and `b` has
      none, or both have one and `a`'s is later. */
  predicate NewerFirst(a: Option<int>, b: Option<int>): (r: bool)
    ensures a.None? ==> !r
    ensures a.Some? && b.None? ==> r
    ensures a.Some? && b.Some? ==> (r <==> b.value - a.value < 0)
  {
    a.Some? && (b.None? || a.value > b.value)
  }

  lemma NewerFirstIsStrictTotal()
    ensures StrictOrder(NewerFirst) && Total(NewerFirst)
  {
  }

  /** `sortProducts`: a sorted copy; the input sequence is a value and is not touched. */
  function SortProducts(products: seq<Product>): (r: seq<Product>)
    ensures multiset(r) == multiset(products)
    ensures Sorted(r, RecencyKey, NewerFirst)
    ensures Stable(r, products, RecencyKey)
  {
    NewerFirstIsStrictTotal();
    SortBySorted(products, RecencyKey, NewerFirst);
    SortByStable(products, RecencyKey, NewerFirst);
    SortBy(products, RecencyKey, NewerFirst)
  }

  /** Dated products come before undated ones, and dated ones run from newest to oldest. */
  lemma SortedProductsOrder(products: seq<Product>, i: nat, j: nat)
    requires i < j < |SortProducts(products)|
    ensures var r := SortProducts(products);
            (RecencyKey(r[j]).Some? ==> RecencyKey(r[i]).Some?)
            && (RecencyKey(r[j]).Some? ==> RecencyKey(r[i]).value >= RecencyKey(r[j]).value)
  {
    var r := SortProducts(products);
    assert !NewerFirst(RecencyKey(r[j]), RecencyKey(r[i]));
  }

  /** The platform's stable sort with this comparator yields exactly `SortProducts`. */
  lemma AnyStableSortAgrees(r: seq<Product>, products: seq<Product>)
    requires multiset(r) == multiset(products)
    requires Sorted(r, RecencyKey, NewerFirst) && Stable(r, products, RecencyKey)
    ensures r == SortProducts(products)
  {
    NewerFirstIsStrictTotal();
    SortedStableIsUnique(r, products, RecencyKey, NewerFirst);
  }
}
