/** The application service: four forwarders over the products repository. It owns no state
    of its own beyond the repository handle it was built with. */
module App {
  import opened Wrappers
  import opened Domain
  import opened Repositories

  /** The dependencies injected into the application. Either may be nil (`None`, `null`):
      nothing validates them, but every method logs first and then calls the repository, so
      each method requires both. The repository is the in-memory one of this model. */
  datatype ApplicationInput = ApplicationInput(
    logger: Option<Logger>,
    productsRepository: InMemoryProductsRepository?)

  /** NewApplication never fails: it stores the injected input as it is. */
  function NewApplication(input: ApplicationInput): (r: Result<Application, Error>)
    ensures r.Success? && r.value.input == input
  {
    Success(Application(input))
  }

  /** MustNewApplication never panics and returns what NewApplication builds. */
  function MustNewApplication(input: ApplicationInput): (app: Application)
    ensures NewApplication(input) == Success(app)
    ensures app.input == input
  {
    NewApplication(input).value
  }

  /** How a product-returning operation hands back the repository's answer: the error passes
      through verbatim, and a product is returned only on success, the zero product otherwise. */
  function ForwardProduct(result: Product, err: Option<Error>): (r: (Product, Option<Error>))
    ensures r.1 == err
    ensures err.None? ==> r.0 == result
    ensures err.Some? ==> r.0 == ZeroProduct
  {
    if err.Some? then (ZeroProduct, err) else (result, None)
  }

  /** How ListProducts hands back the repository's answer: on failure the list is dropped
      (Go `nil`), whatever the repository returned beside the error. */
  function ForwardList(result: seq<Product>, err: Option<Error>): (r: (seq<Product>, Option<Error>))
    ensures r.1 == err
    ensures err.None? ==> r.0 == result
    ensures err.Some? ==> r.0 == []
  {
    if err.Some? then ([], err) else (result, None)
  }

  datatype Application = Application(input: ApplicationInput) {

    /** RegisterProduct: one call of the repository's Create with the product unchanged.
        `drawnId` is the id that Create draws. */
    method RegisterProduct(product: Product, drawnId: int) returns (registered: Product, err: Option<Error>)
      requires input.logger.Some? && input.productsRepository != null
      requires input.productsRepository.Valid() && input.productsRepository.initialized
      requires 0 <= drawnId < IdRange
      modifies input.productsRepository
      ensures input.productsRepository.Valid()
      ensures err.None? && registered == product.(id := drawnId)
      ensures input.productsRepository.storage == old(input.productsRepository.storage)[drawnId := registered]
    {
      var created, createErr := input.productsRepository.Create(product, drawnId);
      var forwarded := ForwardProduct(created, createErr);
      registered, err := forwarded.0, forwarded.1;
    }

    /** UpdateProduct: one call of the repository's Update with the product unchanged; the
        repository's not-found error comes back verbatim beside the zero product. */
    method UpdateProduct(product: Product) returns (updated: Product, err: Option<Error>)
      requires input.logger.Some? && input.productsRepository != null
      requires input.productsRepository.Valid() && input.productsRepository.initialized
      modifies input.productsRepository
      ensures input.productsRepository.Valid()
      ensures product.id !in old(input.productsRepository.storage) ==>
        updated == ZeroProduct && err == Some(RepositoryProductNotFound)
        && input.productsRepository.storage == old(input.productsRepository.storage)
      ensures product.id in old(input.productsRepository.storage) ==>
        updated == product && err.None?
        && input.productsRepository.storage == old(input.productsRepository.storage)[product.id := product]
    {
      var result, updateErr := input.productsRepository.Update(product);
      var forwarded := ForwardProduct(result, updateErr);
      updated, err := forwarded.0, forwarded.1;
    }

    /** DeleteProduct: one call of the repository's Delete with the id unchanged; it succeeds
        exactly when the repository does and passes its error on verbatim. */
    method DeleteProduct(id: int) returns (err: Option<Error>)
      requires input.logger.Some? && input.productsRepository != null
      requires input.productsRepository.Valid() && input.productsRepository.initialized
      modifies input.productsRepository
      ensures input.productsRepository.Valid()
      ensures id !in old(input.productsRepository.storage) ==>
        err == Some(RepositoryProductNotFound)
        && input.productsRepository.storage == old(input.productsRepository.storage)
      ensures id in old(input.productsRepository.storage) ==>
        err.None? && input.productsRepository.storage == old(input.productsRepository.storage) - {id}
    {
      var deleteErr := input.productsRepository.Delete(id);
      if deleteErr.Some? {
        return deleteErr;
      }
      return None;
    }

    /** ListProducts: one read-only call of the repository's List with the filter unchanged;
        the result is a listing of every stored product. */
    method ListProducts(filter: ListProductsFilter) returns (products: seq<Product>, err: Option<Error>)
      requires input.logger.Some? && input.productsRepository != null
      requires input.productsRepository.Valid() && input.productsRepository.initialized
      ensures err.None?
      ensures IsListing(products, input.productsRepository.storage)
      ensures |products| == |input.productsRepository.storage|
    {
      var result, listErr := input.productsRepository.List(filter);
      var forwarded := ForwardList(result, listErr);
      products, err := forwarded.0, forwarded.1;
    }
  }
}
