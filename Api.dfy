/**
 * The lookup service's response records. Only the shapes are modelled: the
 * HTTP client that fills them is an external collaborator.
 */
module Api {
  import opened Wrappers

  /** A product as the Open Food Facts API describes it; every field may be absent. */
  datatype Product = Product(
    productName: Option<string>,
    allergensTags: Option<seq<string>>,
    tracesTags: Option<seq<string>>,
    ingredientsText: Option<string>)

  /** The envelope of a product lookup; `status == 1` means the product was found. */
  datatype ProductResponse = ProductResponse(
    product: Option<Product>,
    status: int,
    statusVerbose: Option<string>)
}
