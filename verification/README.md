# Products service: repository, application and gRPC port

This Dafny project models the storage core of the `products` service of an e-commerce
system written in Go, and the two thin layers above it.

- **In-memory products repository** (`Repositories`). This is a class whose `storage` field is
  an `int → Product` map. Create, Update and Delete change it in place, and List reads it.
  The object invariant `Valid()` says two things. Every stored product carries its own key as
  its id. Every key lies in [0, 1000), the range of the random id draw (the seed key 10 is
  in it too). The constructor establishes it and every operation keeps it.
- **Application service** (`App`). This is a value (a Go struct with value receivers) that holds
  its injected input, including the repository handle. Its four methods each forward to the
  repository once. The pure functions `ForwardProduct` and `ForwardList` state how an answer
  comes back: the error passes through verbatim, with a zero product or an empty list beside it.
- **gRPC resolver** (`GrpcPort`). It decodes wire messages into domain values and encodes results
  back, with Go's `int32` narrowing written out. It maps application errors to gRPC statuses.
- **Scenarios** (`Scenarios`). These are sequences of calls, and what a caller can conclude
  from the contracts alone.

The random id of `Create` (`rand.Intn(1000)`) is the parameter `drawnId`, with `0 <= drawnId < 1000`.
The application and the resolver pass it through.

Where the repository's test file and the Go code differ, the model follows the code:

- The in-memory repository has no capacity check. `Size` is only compared to 0 and used as a
  map size hint (`Scenarios.SizeIsNotACapacity`).
- Create ignores the caller's id and overwrites on collision (`Scenarios.CreateCollisionOverwrites`).
- List ignores its filter.
- A new repository is seeded with one product under key 10.
- The in-memory repository's not-found error is its own value, not `domain.ErrProductNotFound`.
  So the resolver answers an Update or Delete of an absent id with the generic internal error,
  not with NotFound (`GrpcPort.ProductsResolver.Update`, `GrpcPort.ProductsResolver.Delete`).

The repository's test file expects the opposite on each of these points:
`ErrStorageLimitReached` (in_memory_products_repository_test.go:158-169), a kept caller id
(:205-222), id filtering (:491-510), and an empty initial map (:56-61).

## Model

| member | source | states |
|---|---|---|
| `Repositories.InMemoryProductsRepository.Zero` | services/products/adapters/repositories/in_memory_products_repository.go:33-35 | the zero repository: size 0, a nil (empty, unwritable) map, and the invariant holds |
| `Repositories.InMemoryProductsRepository.Seeded` | services/products/adapters/repositories/in_memory_products_repository.go:37-49 | a repository built from a non-zero size holds exactly the seed product under key 10 and satisfies the invariant |
| `Repositories.InMemoryProductsRepository.New` | services/products/adapters/repositories/in_memory_products_repository.go:32-50 | size 0 fails with ErrInvalidStorageSize and the zero repository; every other size, negative ones included, succeeds with exactly {10 ↦ (10, "Macbook Air M1", "Fast!", 6900)} |
| `Repositories.InMemoryProductsRepository.MustNew` | services/products/adapters/repositories/in_memory_products_repository.go:54-61 | for a non-zero size (0 panics) it gives the seeded repository |
| `Repositories.InMemoryProductsRepository.Create` | services/products/adapters/repositories/in_memory_products_repository.go:64-73 | requires a repository built from a non-zero size; never fails; returns the input with its id replaced by the drawn id; the map gains or overwrites exactly that key; the invariant is kept |
| `Repositories.InMemoryProductsRepository.Update` | services/products/adapters/repositories/in_memory_products_repository.go:76-87 | requires a repository built from a non-zero size; absent id: ErrProductNotFound, zero product, map unchanged; present id: the whole entry is replaced by the input, which is returned; key set and invariant kept |
| `Repositories.InMemoryProductsRepository.Delete` | services/products/adapters/repositories/in_memory_products_repository.go:90-102 | requires a repository built from a non-zero size; absent id: ErrProductNotFound, map unchanged; present id: exactly that key is removed and nil returned |
| `Repositories.InMemoryProductsRepository.List` | services/products/adapters/repositories/in_memory_products_repository.go:105-115 | requires a repository built from a non-zero size; never fails, changes nothing, ignores the filter; the result lists every stored product exactly once (ids are the key set, no id twice, each entry the stored value), so its length is the number of keys |
| `Repositories.ListingLength` | services/products/adapters/repositories/in_memory_products_repository.go:109-112 | a listing has exactly one element per stored key |
| `Repositories.ListingContains` | services/products/adapters/repositories/in_memory_products_repository.go:110-111 | every stored product occurs in a listing |
| `Repositories.ListingsArePermutations` | services/products/adapters/repositories/in_memory_products_repository_test.go:524 | any two listings of the same map are permutations of each other: only the order can differ |
| `App.NewApplication` | services/products/app/app.go:22-26 | never fails, for every input, nil logger or nil repository included; the application holds exactly the injected input |
| `App.MustNewApplication` | services/products/app/app.go:30-36 | never panics and returns the application NewApplication builds |
| `App.ForwardProduct` | services/products/app/register_product.go:13-18 | the repository's error comes back unchanged; on success the repository's product comes back, on failure the zero product |
| `App.ForwardList` | services/products/app/list_products.go:13-18 | the repository's error comes back unchanged; on success the repository's list, on failure an empty (nil) list whatever the repository returned |
| `App.Application.RegisterProduct` | services/products/app/register_product.go:10-19 | requires a logger and a repository built from a non-zero size; forwards the product unchanged to Create; returns Create's product (input with the drawn id) and no error; the repository's map change is the only effect |
| `App.Application.UpdateProduct` | services/products/app/update_product.go:10-19 | requires a logger and a repository built from a non-zero size; forwards the product unchanged to Update; absent id: zero product and the repository's not-found error verbatim, nothing changed; present id: the replaced product |
| `App.Application.DeleteProduct` | services/products/app/delete_product.go:9-21 | requires a logger and a repository built from a non-zero size; forwards the id unchanged to Delete; nil exactly when the id was stored (then exactly that key is gone), otherwise the repository's not-found error verbatim with nothing changed |
| `App.Application.ListProducts` | services/products/app/list_products.go:10-19 | requires a logger and a repository built from a non-zero size; read-only forward of List; never fails with this repository; the result lists every stored product once |
| `GrpcPort.ToInt32` | services/products/ports/grpc/products.go:96-99 | Go's `int32(x)`: the result is congruent to x modulo 2^32 and equals x exactly when x fits in int32 |
| `GrpcPort.FromPb` | services/products/ports/grpc/products.go:112-117 | a request message becomes a domain product with id and price widened to int and name and description copied; nothing is lost, so encoding it again gives back the message |
| `GrpcPort.ToPb` | services/products/ports/grpc/products.go:128-135 | a domain product is sent back with name and description copied and id and price narrowed by `int32(...)`: each is congruent modulo 2^32 to the original and equal to it exactly when it fits in int32 |
| `GrpcPort.ProductRoundTrip` | services/products/ports/grpc/products.go:128-135 | a domain product survives encoding and decoding exactly when its id and price fit in int32; otherwise they come back wrapped modulo 2^32 |
| `GrpcPort.InternalOnError` | services/products/ports/grpc/products.go:79-88 | List and Register answer every application error, whatever it is, with the generic "Internal server error" status |
| `GrpcPort.ErrorStatusesDiffer` | services/products/ports/grpc/products.go:118-126 | the List/Register answer to an error equals the Update/Delete answer exactly when the error is not domain.ErrProductNotFound |
| `GrpcPort.NotFoundOrInternal` | services/products/ports/grpc/products.go:152-170 | NotFound (carrying the error) exactly for domain.ErrProductNotFound; the generic "Internal server error" status for every other error |
| `GrpcPort.BuildFilter` | services/products/ports/grpc/products.go:72-75 | the filter has one id per request id, in request order, each converted to int; an empty request gives the empty filter |
| `GrpcPort.BuildListData` | services/products/ports/grpc/products.go:90-101 | one wire product per domain product, same order, fields copied, id and price narrowed; empty input gives empty data |
| `GrpcPort.NewProductsResolver` | services/products/ports/grpc/products.go:33-51 | nil logger fails with ErrMissingLogger (checked first), else nil tracer fails with ErrMisingTracer; otherwise succeeds holding the given application, which is not checked |
| `GrpcPort.MustNewProductsResolver` | services/products/ports/grpc/products.go:55-66 | with both dependencies present (otherwise it panics) it returns NewProductsResolver's resolver |
| `GrpcPort.ProductsResolver.List` | services/products/ports/grpc/products.go:68-104 | over an application with a logger and a repository built from a non-zero size, succeeds with one wire product per listed product in the same order (an application error would become `InternalOnError`'s status); the listing is of every stored product; stored ids come back unwrapped |
| `GrpcPort.ProductsResolver.Register` | services/products/ports/grpc/products.go:106-138 | over an application with a logger and a repository built from a non-zero size, the request, id included, goes to the application (an error would become `InternalOnError`'s status); the response is the request with the drawn id; the map gains that entry |
| `GrpcPort.ProductsResolver.Update` | services/products/ports/grpc/products.go:140-182 | present id: the entry is replaced and the request echoed back; absent id: the in-memory not-found error is not domain.ErrProductNotFound, so the answer is the internal error, with nothing changed |
| `GrpcPort.ProductsResolver.Delete` | services/products/ports/grpc/products.go:184-212 | present id: removed, answered "Product deleted successfully"; absent id: the internal error, nothing changed |
| `Scenarios.FreshRepositoryListsSeedOnly` | services/products/adapters/repositories/in_memory_products_repository.go:37-49 | listing a freshly built repository yields exactly the seed product, unlike the empty map the test file expects |
| `Scenarios.SizeIsNotACapacity` | services/products/adapters/repositories/in_memory_products_repository.go:32-72 | a repository of size 1 accepts two Creates and then holds three products |
| `Scenarios.CreateCollisionOverwrites` | services/products/adapters/repositories/in_memory_products_repository.go:68-71 | a second Create drawing a taken id replaces the first product under that key |
| `Scenarios.RegisterThenList` | services/products/app/register_product.go:13-18 | over an application with a logger and a repository built from a non-zero size, after RegisterProduct, ListProducts shows the product with its drawn id |
| `Scenarios.UpdateReplacesWholeEntry` | services/products/adapters/repositories/in_memory_products_repository.go:85-86 | Create then Update under the assigned id then List: the entry under that id is the update's product, never a merge |
| `Scenarios.FailedChangesLeaveListing` | services/products/adapters/repositories/in_memory_products_repository.go:80-97 | on a repository built from a non-zero size, Update and Delete of an absent id both fail with not-found; the map is unchanged and listings before and after agree up to order |
| `Scenarios.DeleteThenUpdateFails` | services/products/adapters/repositories/in_memory_products_repository.go:94-99 | after a Delete succeeds, an Update of the same id fails with not-found |

## Left out

- Tracing and logging: spans and zap logging have no effect on results. The logger and tracer are opaque handles, and a nil one panics at its first use. The resolver's constructor refuses nil handles. The application methods log before they call the repository, so they require a logger (`input.logger.Some?`). Every repository method starts a span on its tracer first, so the zero repository, whose tracer is nil, panics in each of them (see below).
- A repository built by New with a non-zero size but a nil tracer panics in the same way. New is modelled without its logger and tracer, so the model assumes both were supplied whenever the size is non-zero.
- The delete_product.go snapshot starts a span on an application tracer (delete_product.go:10), a field the application input of app.go does not have. The model follows app.go and has no application tracer.
- The random number generator: `rand.Intn(1000)` is the `drawnId` parameter. The concrete id (81) that the test file expects after seeding the generator depends on Go's generator and is not modelled.
- Request contexts and their cancellation: no operation of the core blocks.
- Concurrency: the repository map is unsynchronised in the source. The model covers strictly sequential calls only.
- The capacity limit (`ErrStorageLimitReached`), kept caller ids, filtering by ids, an empty initial map and the three-argument constructors appear only in the test file. The code does not have them, so the model does not either.
- The `domain` package's repository and application interfaces use string ids (contracts.go:18,29,37), but every implementation uses int ids. The model uses int ids throughout.
- The application snapshots disagree on field names (`in` vs `logger`/`productsRepository` vs `Logger`/`Tracer`/`ProductsRepository`). The model has one input value holding a logger and the repository.
- The application is fixed to the in-memory repository rather than any implementation of the repository interface. With this repository Create and List never fail, so the application's failure paths are stated on `App.ForwardProduct` and `App.ForwardList` for arbitrary errors. The mocked repositories of the application tests are not modelled.
- A nil repository, or a nil application in the resolver, panics on the first call. The methods require a non-null repository. The application is a value here, so a nil application is not representable.
- The zero repository returned with ErrInvalidStorageSize has a nil tracer and a nil map. Create, Update, Delete and List all start a span on that tracer first (in_memory_products_repository.go:65, :77, :91, :106), so every one of them panics on it. Each therefore requires a repository built from a non-zero size (`initialized`), and so do the application and resolver methods and the scenarios built on them.
- Go distinguishes a nil slice from an empty one. List returns nil for an empty map, and the resolver starts `Data` non-nil. The model's sequences do not make this distinction.
- Go's `int` is 64-bit; the model uses unbounded integers. No operation of the core overflows 64 bits. Only the narrowing to int32 on the way out is written out.
- `errors.Is` also unwraps wrapped errors. No error is wrapped in the core, so the model compares error values directly.
- The text of `domain.ErrProductNotFound` is defined in a domain file that is not part of this model. A NotFound status therefore carries the error itself rather than its text.
- GrpcPort.ProductsResolver.List, GrpcPort.ProductsResolver.Register: with the in-memory repository the application never fails, so the error branch (any error becomes the internal status, products.go:79-88, :118-126) cannot be reached. Its mapping is stated on `GrpcPort.InternalOnError`, which both bodies call, rather than on the methods.
- GrpcPort.ProductsResolver.List: the application's answer is named by the ghost out-parameter `listed`, because the map's iteration order is not determined. The response is stated element by element against it.
- The SQL repository (pg_products_repository.go) is not part of this model. It is a pass-through to the database library; its only logic maps "no rows" to `domain.ErrProductNotFound`.
- The AMQP consumer and producer, the GraphQL gateway, the gRPC server and client setup, configuration loading, process bootstrap, metrics and the gRPC test harness are not part of this model. They are transport, network or process plumbing.
