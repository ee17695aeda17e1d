/** The product read model that the storefront fetches and the cart and the
    filters consume. Prices are exact decimals (`real`); the source keeps
    them as JavaScript numbers. */
module Catalog {

  datatype Product = Product(id: int, title: string, price: real, image: string, category: string)
}
