/** The in-memory products repository: an id-indexed map changed in place by Create,
    Update and Delete, and read by List. */
module Repositories {
  import opened Wrappers
  import opened Domain

  /** Ids handed out by Create are drawn from [0, IdRange). */
  const IdRange := 1000

  /** The product the constructor stores before any call. */
  const SeedProduct := Product(10, "Macbook Air M1", "Fast!", 6900)

  /** The ids of the products of a list. */
  ghost function Ids(r: seq<Product>): set<int>
  {
    set i | 0 <= i < |r| :: r[i].id
  }

  /** No two products of the list share an id. */
  ghost predicate DistinctIds(r: seq<Product>)
  {
    forall i, j :: 0 <= i < j < |r| ==> r[i].id != r[j].id
  }

  /** `r` lists the products stored in `m`, each exactly once, in some order. */
  ghost predicate IsListing(r: seq<Product>, m: map<int, Product>)
  {
    && Ids(r) == m.Keys
    && (forall i :: 0 <= i < |r| ==> r[i].id in m && m[r[i].id] == r[i])
    && DistinctIds(r)
  }

  lemma {:induction false} DistinctIdsCount(r: seq<Product>)
    requires DistinctIds(r)
    ensures |Ids(r)| == |r|
  {
    if r != [] {
      var init := r[..|r| - 1];
      DistinctIdsCount(init);
      assert Ids(r) == Ids(init) + {r[|r| - 1].id};
      assert r[|r| - 1].id !in Ids(init);
    }
  }

  lemma IdsAppend(r: seq<Product>, p: Product)
    ensures Ids(r + [p]) == Ids(r) + {p.id}
  {
    var r' := r + [p];
    assert r'[|r|] == p;
    assert forall i :: 0 <= i < |r| ==> r'[i] == r[i];
  }

  lemma NonEmptyHasKey(keys: set<int>)
    requires keys != {}
    ensures exists k :: k in keys
  {
    if forall k :: k !in keys {
      assert false;
    }
  }

  /** A listing has exactly one entry per stored key. */
  lemma ListingLength(r: seq<Product>, m: map<int, Product>)
    requires IsListing(r, m)
    ensures |r| == |m|
  {
    DistinctIdsCount(r);
  }

  /** Every stored product occurs in a listing. */
  lemma ListingContains(r: seq<Product>, m: map<int, Product>, k: int)
    requires IsListing(r, m)
    requires k in m
    ensures m[k] in r
  {
  }

  lemma {:induction false} DistinctIdsOccurOnce(r: seq<Product>, x: Product)
    requires DistinctIds(r)
    ensures multiset(r)[x] == if x in r then 1 else 0
  {
    if r != [] {
      var init := r[..|r| - 1];
      assert r == init + [r[|r| - 1]];
      DistinctIdsOccurOnce(init, x);
      if x == r[|r| - 1] {
        assert forall i :: 0 <= i < |init| ==> init[i].id != x.id;
        assert x !in init;
      }
    }
  }

  /** Two listings of the same map hold the same elements: the order is the only thing in
      which two calls of List may differ. */
  lemma ListingsArePermutations(r1: seq<Product>, r2: seq<Product>, m: map<int, Product>)
    requires IsListing(r1, m) && IsListing(r2, m)
    ensures multiset(r1) == multiset(r2)
  {
    forall x: Product
      ensures multiset(r1)[x] == multiset(r2)[x]
    {
      DistinctIdsOccurOnce(r1, x);
      DistinctIdsOccurOnce(r2, x);
      if x in r1 {
        ListingContains(r2, m, x.id);
      }
      if x in r2 {
        ListingContains(r1, m, x.id);
      }
    }
  }

  class InMemoryProductsRepository {
    /** The configured storage size; only compared to 0 and used as a map size hint. */
    const size: int
    /** False only for the zero value returned with ErrInvalidStorageSize, whose Go map and
        tracer are nil: every operation starts a span on that tracer, so none may be called. */
    const initialized: bool
    var storage: map<int, Product>

    /** Every stored product carries its own key as id, and every key is one that the
        constructor or Create can produce. */
    ghost predicate Valid()
      reads this
    {
      forall k :: k in storage ==> storage[k].id == k && 0 <= k < IdRange
    }

    /** The zero value `InMemoryProductsRepository{}`. */
    constructor Zero()
      ensures size == 0 && !initialized && storage == map[]
      ensures Valid()
    {
      size := 0;
      initialized := false;
      storage := map[];
    }

    /** The repository built from a non-zero size, holding the seed product. */
    constructor Seeded(size: int)
      requires size != 0
      ensures this.size == size && initialized
      ensures storage == map[SeedProduct.id := SeedProduct]
      ensures Valid()
    {
      this.size := size;
      initialized := true;
      storage := map[SeedProduct.id := SeedProduct];
    }

    /** NewInMemoryProductsRepository: a size of 0 is rejected with ErrInvalidStorageSize and
        the zero value; any other size, negative ones included, gives a repository holding
        the seed product only. */
    static method New(size: int) returns (repo: InMemoryProductsRepository, err: Option<Error>)
      ensures fresh(repo) && repo.Valid()
      ensures err == (if size == 0 then Some(InvalidStorageSize) else None)
      ensures size == 0 ==> repo.size == 0 && !repo.initialized && repo.storage == map[]
      ensures size != 0 ==> repo.size == size && repo.initialized
      ensures size != 0 ==> repo.storage == map[10 := Product(10, "Macbook Air M1", "Fast!", 6900)]
    {
      if size == 0 {
        repo := new InMemoryProductsRepository.Zero();
        err := Some(InvalidStorageSize);
        return;
      }
      repo := new InMemoryProductsRepository.Seeded(size);
      err := None;
    }

    /** MustNewInMemoryProductsRepository: panics on a size of 0. */
    static method MustNew(size: int) returns (repo: InMemoryProductsRepository)
      requires size != 0
      ensures fresh(repo) && repo.Valid() && repo.initialized && repo.size == size
      ensures repo.storage == map[SeedProduct.id := SeedProduct]
    {
      var err;
      repo, err := New(size);
    }

    /** Create ignores the caller's id, stores the product under the drawn id (overwriting
        whatever was stored there) and never fails. `drawnId` stands for `rand.Intn(1000)`. */
    method Create(product: Product, drawnId: int) returns (created: Product, err: Option<Error>)
      requires Valid() && initialized
      requires 0 <= drawnId < IdRange
      modifies this
      ensures Valid()
      ensures err.None?
      ensures created == product.(id := drawnId)
      ensures storage == old(storage)[drawnId := created]
    {
      created := product.(id := drawnId);
      storage := storage[drawnId := created];
      err := None;
    }

    /** Update replaces the whole entry stored under the product's id, or fails with
        ErrProductNotFound and the zero product, changing nothing. */
    method Update(product: Product) returns (updated: Product, err: Option<Error>)
      requires Valid() && initialized
      modifies this
      ensures Valid()
      ensures storage.Keys == old(storage.Keys)
      ensures product.id !in old(storage) ==>
        updated == ZeroProduct && err == Some(RepositoryProductNotFound) && storage == old(storage)
      ensures product.id in old(storage) ==>
        updated == product && err.None? && storage == old(storage)[product.id := product]
    {
      if product.id !in storage {
        return ZeroProduct, Some(RepositoryProductNotFound);
      }
      storage := storage[product.id := product];
      return product, None;
    }

    /** Delete removes exactly the given key, or fails with ErrProductNotFound, changing nothing. */
    method Delete(id: int) returns (err: Option<Error>)
      requires Valid() && initialized
      modifies this
      ensures Valid()
      ensures id !in old(storage) ==> err == Some(RepositoryProductNotFound) && storage == old(storage)
      ensures id in old(storage) ==> err.None? && storage == old(storage) - {id}
    {
      if id !in storage {
        return Some(RepositoryProductNotFound);
      }
      storage := storage - {id};
      return None;
    }

    /** List ignores the filter and returns every stored product once, in the map's
        iteration order, which is not specified. It never fails and changes nothing. */
    method List(filter: ListProductsFilter) returns (result: seq<Product>, err: Option<Error>)
      requires Valid() && initialized
      ensures err.None?
      ensures IsListing(result, storage)
      ensures |result| == |storage|
    {
      result := [];
      var pending := storage.Keys;
      while pending != {}
        invariant pending <= storage.Keys
        invariant Ids(result) == storage.Keys - pending
        invariant forall i :: 0 <= i < |result| ==> result[i].id in storage && storage[result[i].id] == result[i]
        invariant DistinctIds(result)
        decreases pending
      {
        NonEmptyHasKey(pending);
        var k :| k in pending;  // Go's map iteration order is unspecified
        IdsAppend(result, storage[k]);
        result := result + [storage[k]];
        pending := pending - {k};
      }
      ListingLength(result, storage);
      err := None;
    }
  }
}
