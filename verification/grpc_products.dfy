/** The gRPC port of the products service: wire messages, their conversion to and from domain
    products, and the resolver that calls the application and maps its errors to statuses. */
module GrpcPort {
  import opened Wrappers
  import opened Domain
  import opened Repositories
  import opened App

  const TwoTo32 := 0x1_0000_0000

  /** Go's int32, the integer type of the protobuf messages. */
  newtype Int32 = x: int | -0x8000_0000 <= x < 0x8000_0000

  predicate FitsInt32(x: int)
  {
    -0x8000_0000 <= x < 0x8000_0000
  }

  /** Go's conversion `int32(x)` of a 64-bit int: it keeps the low 32 bits, read as signed. */
  function ToInt32(x: int): (r: Int32)
    ensures (r as int - x) % TwoTo32 == 0
    ensures FitsInt32(x) <==> r as int == x
  {
    var low := x % TwoTo32;
    if low < 0x8000_0000 then low as Int32 else (low - TwoTo32) as Int32
  }

  /** pb.Product. */
  datatype PbProduct = PbProduct(id: Int32, name: string, description: string, price: Int32)

  /** pb.ListRequest, pb.DeleteRequest and the response messages. */
  datatype ListRequest = ListRequest(ids: seq<Int32>)
  datatype ListResponse = ListResponse(data: seq<PbProduct>)
  datatype RegisterResponse = RegisterResponse(data: PbProduct)
  datatype UpdateResponse = UpdateResponse(data: PbProduct)
  datatype DeleteRequest = DeleteRequest(id: Int32)
  datatype DeleteResponse = DeleteResponse(data: string)

  const DeletedMessage := "Product deleted successfully"

  /** A gRPC status error. A NotFound status carries the error whose text is its message. */
  datatype Status = NotFoundStatus(cause: Error) | InternalStatus(message: string)

  const InternalServerError := InternalStatus("Internal server error")

  /** The product a request message describes (ids and prices widened to int): nothing is
      lost, so encoding it again gives back the message. */
  function FromPb(req: PbProduct): (p: Product)
    ensures FitsInt32(p.id) && FitsInt32(p.price)
    ensures p.name == req.name && p.description == req.description
    ensures ToPb(p) == req
  {
    Product(req.id as int, req.name, req.description, req.price as int)
  }

  /** The message a domain product is sent back as: name and description copied, id and price
      narrowed to int32, so they are kept exactly when they fit and wrapped otherwise. */
  function ToPb(p: Product): (m: PbProduct)
    ensures m.name == p.name && m.description == p.description
    ensures (m.id as int - p.id) % TwoTo32 == 0 && (m.price as int - p.price) % TwoTo32 == 0
    ensures FitsInt32(p.id) <==> m.id as int == p.id
    ensures FitsInt32(p.price) <==> m.price as int == p.price
  {
    PbProduct(ToInt32(p.id), p.name, p.description, ToInt32(p.price))
  }

  /** A product whose id and price fit in int32 survives encoding and decoding; any other
      product comes back with its id or price wrapped modulo 2^32. */
  lemma ProductRoundTrip(p: Product)
    ensures FromPb(ToPb(p)) == p <==> FitsInt32(p.id) && FitsInt32(p.price)
    ensures FromPb(ToPb(p)).id % TwoTo32 == p.id % TwoTo32
    ensures FromPb(ToPb(p)).price % TwoTo32 == p.price % TwoTo32
  {
  }

  /** The status Update and Delete answer an application error with: NotFound exactly for
      domain.ErrProductNotFound, carrying that error; the generic internal error otherwise. */
  function NotFoundOrInternal(err: Error): (s: Status)
    ensures s.NotFoundStatus? <==> err == DomainProductNotFound
    ensures s.NotFoundStatus? ==> s.cause == err
    ensures !s.NotFoundStatus? ==> s == InternalServerError
  {
    if err == DomainProductNotFound then NotFoundStatus(err) else InternalServerError
  }

  /** The status List and Register answer any application error with: always the generic
      internal error, never NotFound, whatever the error. */
  function InternalOnError(err: Error): (s: Status)
    ensures s == InternalServerError
  {
    InternalServerError
  }

  /** List and Register answer an error exactly as Update and Delete do, except for
      domain.ErrProductNotFound, which only Update and Delete turn into NotFound. */
  lemma ErrorStatusesDiffer(err: Error)
    ensures InternalOnError(err) == NotFoundOrInternal(err) <==> err != DomainProductNotFound
  {
  }

  /** The list filter built from a request: each wire id converted to int, in request order. */
  method BuildFilter(ids: seq<Int32>) returns (filter: ListProductsFilter)
    ensures |filter.ids| == |ids|
    ensures forall i :: 0 <= i < |ids| ==> filter.ids[i] == ids[i] as int
  {
    filter := ListProductsFilter([]);
    for n := 0 to |ids|
      invariant |filter.ids| == n
      invariant forall i :: 0 <= i < n ==> filter.ids[i] == ids[i] as int
    {
      filter := filter.(ids := filter.ids + [ids[n] as int]);
    }
  }

  /** The response data of List: one message per product, in the same order. */
  method BuildListData(products: seq<Product>) returns (data: seq<PbProduct>)
    ensures |data| == |products|
    ensures forall i :: 0 <= i < |products| ==> data[i] == ToPb(products[i])
  {
    data := [];
    for n := 0 to |products|
      invariant |data| == n
      invariant forall i :: 0 <= i < n ==> data[i] == ToPb(products[i])
    {
      data := data + [ToPb(products[n])];
    }
  }

  /** NewProductsResolver: a nil logger is refused first, then a nil tracer; the application
      is not checked. */
  function NewProductsResolver(logger: Option<Logger>, tracer: Option<Tracer>, app: Application)
    : (r: Result<ProductsResolver, Error>)
    ensures logger.None? ==> r == Failure(MissingLogger)
    ensures logger.Some? && tracer.None? ==> r == Failure(MissingTracer)
    ensures r.Success? <==> logger.Some? && tracer.Some?
    ensures r.Success? ==> r.value.app == app
  {
    if logger.None? then Failure(MissingLogger)
    else if tracer.None? then Failure(MissingTracer)
    else Success(ProductsResolver(logger.value, tracer.value, app))
  }

  /** MustNewProductsResolver: panics when NewProductsResolver fails. */
  function MustNewProductsResolver(logger: Option<Logger>, tracer: Option<Tracer>, app: Application)
    : (r: ProductsResolver)
    requires logger.Some? && tracer.Some?
    ensures NewProductsResolver(logger, tracer, app) == Success(r)
    ensures r.app == app
  {
    NewProductsResolver(logger, tracer, app).value
  }

  datatype ProductsResolver = ProductsResolver(logger: Logger, tracer: Tracer, app: Application) {

    /** List: the filter is built from the request ids, and every product the application
        lists (here: every stored product) comes back once, converted, in the order listed.
        Stored ids lie in [0, 1000), so no id is wrapped on the way out. `listed` is the
        application's answer. */
    method List(req: ListRequest) returns (response: Result<ListResponse, Status>, ghost listed: seq<Product>)
      requires app.input.logger.Some? && app.input.productsRepository != null
      requires app.input.productsRepository.Valid() && app.input.productsRepository.initialized
      ensures IsListing(listed, app.input.productsRepository.storage)
      ensures response.Success?
      ensures |response.value.data| == |listed| == |app.input.productsRepository.storage|
      ensures forall i :: 0 <= i < |listed| ==> response.value.data[i] == ToPb(listed[i])
      ensures forall i :: 0 <= i < |listed| ==> response.value.data[i].id as int == listed[i].id
    {
      var filter := BuildFilter(req.ids);
      var products, err := app.ListProducts(filter);
      listed := products;
      match err
      case Some(e) => return Failure(InternalOnError(e)), listed;
      case None =>
        var data := BuildListData(products);
        response := Success(ListResponse(data));
    }

    /** Register: the request (its id included) is passed to the application; the registered
        product is sent back, and any error would become the generic internal error. */
    method Register(req: PbProduct, drawnId: int) returns (response: Result<RegisterResponse, Status>)
      requires app.input.logger.Some? && app.input.productsRepository != null
      requires app.input.productsRepository.Valid() && app.input.productsRepository.initialized
      requires 0 <= drawnId < IdRange
      modifies app.input.productsRepository
      ensures app.input.productsRepository.Valid()
      ensures response == Success(RegisterResponse(req.(id := drawnId as Int32)))
      ensures app.input.productsRepository.storage
        == old(app.input.productsRepository.storage)[drawnId := FromPb(req).(id := drawnId)]
    {
      var product, err := app.RegisterProduct(FromPb(req), drawnId);
      match err
      case Some(e) => return Failure(InternalOnError(e));
      case None =>
        response := Success(RegisterResponse(ToPb(product)));
    }

    /** Update: the stored product is replaced and echoed back; an absent id fails with the
        in-memory repository's own not-found error, which is not domain.ErrProductNotFound and
        therefore becomes the generic internal error, not NotFound. */
    method Update(req: PbProduct) returns (response: Result<UpdateResponse, Status>)
      requires app.input.logger.Some? && app.input.productsRepository != null
      requires app.input.productsRepository.Valid() && app.input.productsRepository.initialized
      modifies app.input.productsRepository
      ensures app.input.productsRepository.Valid()
      ensures req.id as int in old(app.input.productsRepository.storage) ==>
        response == Success(UpdateResponse(req))
        && app.input.productsRepository.storage
           == old(app.input.productsRepository.storage)[req.id as int := FromPb(req)]
      ensures req.id as int !in old(app.input.productsRepository.storage) ==>
        response == Failure(InternalServerError)
        && app.input.productsRepository.storage == old(app.input.productsRepository.storage)
    {
      var product, err := app.UpdateProduct(FromPb(req));
      if err.Some? {
        return Failure(NotFoundOrInternal(err.value));
      }
      response := Success(UpdateResponse(ToPb(product)));
    }

    /** Delete: a stored id is removed and acknowledged; an absent id becomes the generic
        internal error, for the same reason as in Update. */
    method Delete(req: DeleteRequest) returns (response: Result<DeleteResponse, Status>)
      requires app.input.logger.Some? && app.input.productsRepository != null
      requires app.input.productsRepository.Valid() && app.input.productsRepository.initialized
      modifies app.input.productsRepository
      ensures app.input.productsRepository.Valid()
      ensures req.id as int in old(app.input.productsRepository.storage) ==>
        response == Success(DeleteResponse(DeletedMessage))
        && app.input.productsRepository.storage == old(app.input.productsRepository.storage) - {req.id as int}
      ensures req.id as int !in old(app.input.productsRepository.storage) ==>
        response == Failure(InternalServerError)
        && app.input.productsRepository.storage == old(app.input.productsRepository.storage)
    {
      var productId := req.id as int;
      var err := app.DeleteProduct(productId);
      if err.Some? {
        return Failure(NotFoundOrInternal(err.value));
      }
      response := Success(DeleteResponse(DeletedMessage));
    }
  }
}
