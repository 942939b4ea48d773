/** The session-wide holder of the product list's page, scroll offset, category filter
    and sort choice. It only stores these; nothing in it reacts to a change of another. */
module ListState {

  /** The five sort choices the holder accepts; the type admits no other value. */
  datatype SortOption = Recent | PriceAsc | PriceDesc | NameAsc | NameDesc

  class ProductListStateService {
    var pageIndex: int
    var scrollPosition: int
    var selectedCategories: seq<string>
    var sortOption: SortOption

    ghost predicate AtDefaults()
      reads this
    {
      pageIndex == 0 && scrollPosition == 0 && selectedCategories == [] && sortOption == Recent
    }

    constructor()
      ensures AtDefaults()
    {
      pageIndex := 0;
      scrollPosition := 0;
      selectedCategories := [];
      sortOption := Recent;
    }

    /** `resetState`: every field back to its default, from any state; a second call
        therefore finds nothing to change. */
    method ResetState()
      modifies this
      ensures AtDefaults()
    {
      pageIndex := 0;
      scrollPosition := 0;
      selectedCategories := [];
      sortOption := Recent;
    }

    method SetPageIndex(k: int)
      modifies this
      ensures pageIndex == k
      ensures scrollPosition == old(scrollPosition) && selectedCategories == old(selectedCategories)
      ensures sortOption == old(sortOption)
    {
      pageIndex := k;
    }

    method SetScrollPosition(y: int)
      modifies this
      ensures scrollPosition == y
      ensures pageIndex == old(pageIndex) && selectedCategories == old(selectedCategories)
      ensures sortOption == old(sortOption)
    {
      scrollPosition := y;
    }

    /** Changing the filter keeps the page and the scroll offset as they were. */
    method SetSelectedCategories(categories: seq<string>)
      modifies this
      ensures selectedCategories == categories
      ensures pageIndex == old(pageIndex) && scrollPosition == old(scrollPosition)
      ensures sortOption == old(sortOption)
    {
      selectedCategories := categories;
    }

    /** Changing the sort keeps the page and the scroll offset as they were. */
    method SetSortOption(option: SortOption)
      modifies this
      ensures sortOption == option
      ensures pageIndex == old(pageIndex) && scrollPosition == old(scrollPosition)
      ensures selectedCategories == old(selectedCategories)
    {
      sortOption := option;
    }
  }
}
