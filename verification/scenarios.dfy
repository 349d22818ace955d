/** Sequences of calls against the repository and the application, and what a caller can
    conclude from the contracts alone. */
module Scenarios {
  import opened Wrappers
  import opened Domain
  import opened Repositories
  import opened App

  /** A freshly built repository lists the seed product and nothing else. */
  method FreshRepositoryListsSeedOnly(size: int) returns (listed: seq<Product>)
    requires size != 0
    ensures listed == [Product(10, "Macbook Air M1", "Fast!", 6900)]
  {
    var repo := InMemoryProductsRepository.MustNew(size);
    var err;
    listed, err := repo.List(ListProductsFilter([]));
    assert listed[0].id in repo.storage.Keys;
  }

  /** Size is not a capacity: a repository of size 1 accepts two more products. */
  method SizeIsNotACapacity(first: Product, second: Product, id1: int, id2: int)
    returns (repo: InMemoryProductsRepository, err1: Option<Error>, err2: Option<Error>)
    requires 0 <= id1 < IdRange && 0 <= id2 < IdRange
    requires id1 != id2 && id1 != 10 && id2 != 10
    ensures err1.None? && err2.None?
    ensures repo.size == 1 && |repo.storage| == 3
  {
    repo := InMemoryProductsRepository.MustNew(1);
    var created;
    created, err1 := repo.Create(first, id1);
    created, err2 := repo.Create(second, id2);
    assert repo.storage.Keys == {10, id1, id2};
  }

  /** A Create whose drawn id is already taken silently replaces the stored product. */
  method CreateCollisionOverwrites(repo: InMemoryProductsRepository, p: Product, q: Product, drawnId: int)
    requires repo.Valid() && repo.initialized && 0 <= drawnId < IdRange
    modifies repo
    ensures repo.Valid()
    ensures repo.storage.Keys == old(repo.storage.Keys) + {drawnId}
    ensures repo.storage[drawnId] == q.(id := drawnId)
  {
    var created, err := repo.Create(p, drawnId);
    created, err := repo.Create(q, drawnId);
  }

  /** Registering a product and then listing shows the registered product, with its drawn id. */
  method RegisterThenList(app: Application, product: Product, drawnId: int) returns (listed: seq<Product>)
    requires app.input.logger.Some? && app.input.productsRepository != null
    requires app.input.productsRepository.Valid() && app.input.productsRepository.initialized
    requires 0 <= drawnId < IdRange
    modifies app.input.productsRepository
    ensures product.(id := drawnId) in listed
    ensures |listed| == |old(app.input.productsRepository.storage.Keys) + {drawnId}|
  {
    var registered, err := app.RegisterProduct(product, drawnId);
    assert app.input.productsRepository.storage.Keys == old(app.input.productsRepository.storage.Keys) + {drawnId};
    listed, err := app.ListProducts(ListProductsFilter([]));
    ListingContains(listed, app.input.productsRepository.storage, drawnId);
  }

  /** Create, then Update under the assigned id, then List: the entry holds the update's
      fields only, never a merge with the created product. */
  method UpdateReplacesWholeEntry(repo: InMemoryProductsRepository, p: Product, q: Product, drawnId: int)
    returns (listed: seq<Product>)
    requires repo.Valid() && repo.initialized && 0 <= drawnId < IdRange
    modifies repo
    ensures q.(id := drawnId) in listed
    ensures forall i :: 0 <= i < |listed| && listed[i].id == drawnId ==> listed[i] == q.(id := drawnId)
  {
    var created, createErr := repo.Create(p, drawnId);
    var updated, updateErr := repo.Update(q.(id := created.id));
    var listErr;
    listed, listErr := repo.List(ListProductsFilter([created.id]));
    ListingContains(listed, repo.storage, drawnId);
  }

  /** Update and Delete of an absent id both fail with not-found and leave the listing as it
      was, up to order. */
  method FailedChangesLeaveListing(repo: InMemoryProductsRepository, p: Product)
    returns (before: seq<Product>, after: seq<Product>, updateErr: Option<Error>, deleteErr: Option<Error>)
    requires repo.Valid() && repo.initialized && p.id !in repo.storage
    modifies repo
    ensures updateErr == Some(RepositoryProductNotFound) && deleteErr == Some(RepositoryProductNotFound)
    ensures multiset(before) == multiset(after)
    ensures repo.storage == old(repo.storage)
  {
    var listErr;
    before, listErr := repo.List(ListProductsFilter([]));
    var updated;
    updated, updateErr := repo.Update(p);
    deleteErr := repo.Delete(p.id);
    after, listErr := repo.List(ListProductsFilter([]));
    ListingsArePermutations(before, after, repo.storage);
  }

  /** Deleting a stored product makes a later Update of it fail. */
  method DeleteThenUpdateFails(repo: InMemoryProductsRepository, p: Product)
    returns (deleteErr: Option<Error>, updateErr: Option<Error>)
    requires repo.Valid() && repo.initialized && p.id in repo.storage
    modifies repo
    ensures deleteErr.None? && updateErr == Some(RepositoryProductNotFound)
    ensures repo.storage == old(repo.storage) - {p.id}
  {
    deleteErr := repo.Delete(p.id);
    var updated;
    updated, updateErr := repo.Update(p);
  }
}
