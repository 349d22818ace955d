/** The domain package of the products service: the Product entity, the list filter and
    the error values that the repository, the application and the gRPC port exchange. */
module Domain {

  /** A product of the catalog (services/products/domain/product.go). Go's `int` is 64-bit;
      here it is unbounded, since nothing in the core overflows a 64-bit integer. */
  datatype Product = Product(id: int, name: string, description: string, price: int)

  /** Go's zero value `domain.Product{}`. */
  const ZeroProduct := Product(0, "", "", 0)

  /** The filter handed to List: a list of product ids. */
  datatype ListProductsFilter = ListProductsFilter(ids: seq<int>)

  /** The Go error values of the core. Each is a distinct value, as `errors.New` makes them:
      `errors.Is` recognises only the identical value. */
  datatype Error =
    | InvalidStorageSize          // repositories.ErrInvalidStorageSize, "invalid-storage-size"
    | RepositoryProductNotFound   // repositories.ErrProductNotFound, "product-not-found"
    | DomainProductNotFound       // domain.ErrProductNotFound, returned by the SQL repository
    | MissingLogger               // grpc_port.ErrMissingLogger
    | MissingTracer               // grpc_port.ErrMisingTracer
    | Other(text: string)         // any other error, e.g. a storage backend failure

  /** Opaque handles for the zap logger and the OpenTelemetry tracer. Only whether one was
      supplied (Go non-nil) matters to the core; what they record is not modelled. */
  datatype Logger = Logger
  datatype Tracer = Tracer
}
