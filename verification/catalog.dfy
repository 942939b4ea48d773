/** The records the storefront passes around. */
module Catalog {
  import opened Wrappers

  /** A product as the current code uses it: a string document id, several categories,
      a main image and a gallery. Dates are epoch milliseconds; `None` is a missing date.
      `quantity` is the stock count on a catalogue record and the number of units on a
      cart entry. */
  datatype Product = Product(
    id: string,
    name: string,
    description: string,
    price: int,
    quantity: int,
    isActive: bool,
    categories: seq<string>,
    mainImageUrl: string,
    imageUrls: seq<string>,
    insertDate: Option<int>,
    updateDate: Option<int>)

  /** The older product record, still used by the first product list component:
      a numeric id, one image and a single category. */
  datatype LegacyProduct = LegacyProduct(
    id: int,
    name: string,
    description: string,
    imageUrl: string,
    price: int,
    quantity: int,
    isActive: bool,
    category: string,
    insertDate: int,
    updateDate: int)

  /** An info card shown after a product's own pictures. `kind` is the record's
      `type` field (a free-text label), renamed because `type` is a Dafny keyword. */
  datatype InfoPicture = InfoPicture(
    id: string,
    imageUrl: string,
    kind: string,
    isActive: bool,
    order: int,
    insertDate: Option<int>,
    updateDate: Option<int>)

  /** A file the user picked in the browser; only its name is ever read. */
  datatype FileRef = FileRef(name: string, handle: nat)
}
