/** The writing half of the product service: `create`, `update` and
    `remove` change the stored products in place, and `update` drives a
    query runner through a transaction. Database failures are not computed
    here: each method is told whether its write fails, and with what error. */
module Products {
  import opened Wrappers
  import opened ProductsErrors
  import opened ProductsCatalog
  import opened UuidFormat

  /** How a service call settles: with a value, with `undefined` (a catch
      block whose handler returned), or by throwing. */
  datatype Reply<T> = Returned(value: T) | ReturnedUndefined | Threw(thrown: Thrown)

  /** A catch block that ends in `this.handleExceptions(error)`. */
  function Caught<T>(handled: Option<Thrown>): Reply<T>
  {
    if handled.None? then ReturnedUndefined else Threw(handled.value)
  }

  /** Returning the promise of a lookup that may throw an HTTP exception. */
  function Settled<T>(r: Result<T, HttpException>): Reply<T>
  {
    match r
    case Success(v) => Returned(v)
    case Failure(e) => Threw(Http(e))
  }

  /** The calls `update` makes on its query runner. */
  datatype QueryRunnerCall =
    | Connect | StartTransaction | DeleteImages(productId: string) | Save
    | CommitTransaction | RollbackTransaction | Release

  /** No two rows share an id (the primary key), as `uuid` values. */
  predicate DistinctIds(products: seq<Product>)
  {
    forall a, b :: 0 <= a < b < |products| ==> !SameId(products[a].id, products[b].id)
  }

  /** The index of the row with the given primary key, as `preload` finds it. */
  function IndexOfId(products: seq<Product>, id: string): (k: Option<nat>)
    ensures k.Some? ==> k.value < |products| && SameId(products[k.value].id, id)
    ensures k.None? ==> forall j :: 0 <= j < |products| ==> !SameId(products[j].id, id)
    decreases |products|
  {
    if products == [] then None
    else if SameId(products[0].id, id) then Some(0)
    else match IndexOfId(products[1..], id)
      case None => None
      case Some(k) => Some(k + 1)
  }

  /** The rows left after deleting the row with the given primary key. */
  function WithoutId(products: seq<Product>, id: string): (rest: seq<Product>)
    ensures forall p :: p in rest <==> p in products && p.id != id
    ensures DistinctIds(products) ==> DistinctIds(rest)
    decreases |products|
  {
    if products == [] then []
    else
      var tail := WithoutId(products[1..], id);
      assert forall p :: p in products[1..] ==> p in products;
      if products[0].id == id then tail
      else
        assert DistinctIds(products) ==> forall p :: p in tail ==> !SameId(p.id, products[0].id);
        [products[0]] + tail
  }

  /** Replacing a row by one with the same primary key keeps ids distinct. */
  lemma ReplaceKeepsDistinct(products: seq<Product>, k: nat, p: Product)
    requires DistinctIds(products) && k < |products| && p.id == products[k].id
    ensures DistinctIds(products[k := p])
  {
    var after := products[k := p];
    forall a, b | 0 <= a < b < |after| ensures !SameId(after[a].id, after[b].id) {
      assert after[a].id == products[a].id && after[b].id == products[b].id;
    }
  }

  /** Adding a row under a new primary key keeps ids distinct. */
  lemma AppendKeepsDistinct(products: seq<Product>, p: Product)
    requires DistinctIds(products)
    requires forall k :: 0 <= k < |products| ==> !SameId(products[k].id, p.id)
    ensures DistinctIds(products + [p])
  {
    var after := products + [p];
    forall a, b | 0 <= a < b < |after| ensures !SameId(after[a].id, after[b].id) {
      assert after[a] == products[a];
      if b < |products| {
        assert after[b] == products[b];
      }
    }
  }

  /** With distinct ids, at most one row has a given UUID. */
  lemma OnlyRowWithId(products: seq<Product>, k: nat, term: string)
    requires DistinctIds(products) && k < |products| && SameId(products[k].id, term)
    ensures forall j :: 0 <= j < |products| && j != k ==> !SameId(products[j].id, term)
  {
    forall j | 0 <= j < |products| && j != k ensures !SameId(products[j].id, term) {
      if j < k {
        assert !SameId(products[j].id, products[k].id);
      } else {
        assert !SameId(products[k].id, products[j].id);
      }
    }
  }

  /** After a successful update of the row a UUID names, in any letter
      case, the product that `update` returns through findOnePlain is the
      updated row. */
  lemma UpdateReturnsUpdatedRow(products: seq<Product>, k: nat, id: string, dto: UpdateDto, user: Option<UserId>)
    requires DistinctIds(products) && k < |products|
    requires IsUuid(id) && SameId(products[k].id, id)
    ensures var after := products[k := Updated(products[k], dto, user)];
      && DistinctIds(after)
      && FindOnePlain(after, id) == Success(Plain(after[k]))
  {
    var after := products[k := Updated(products[k], dto, user)];
    ReplaceKeepsDistinct(products, k, after[k]);
    OnlyRowWithId(after, k, id);
    OnlyMatch(after, k, id);
  }

  /** A product just created under a UUID is what findOnePlain then finds by
      that id, and it is exactly the value `create` returned. */
  lemma CreatedIsFound(products: seq<Product>, dto: CreateDto, newId: string, user: Option<UserId>)
    requires DistinctIds(products) && IsUuid(newId)
    requires forall k :: 0 <= k < |products| ==> !SameId(products[k].id, newId)
    ensures var after := products + [NewProduct(dto, newId, user)];
      && DistinctIds(after)
      && FindOnePlain(after, newId) == Success(CreatedReply(dto, newId, user))
  {
    var after := products + [NewProduct(dto, newId, user)];
    AppendKeepsDistinct(products, after[|products|]);
    OnlyRowWithId(after, |products|, newId);
    OnlyMatch(after, |products|, newId);
  }

  /** Once the row a UUID names is removed, looking that UUID up again, in
      any letter case, finds nothing. */
  lemma RemovedIsGone(products: seq<Product>, k: nat, term: string)
    requires DistinctIds(products) && k < |products|
    requires IsUuid(term) && SameId(products[k].id, term)
    ensures FindOne(WithoutId(products, products[k].id), term).Failure?
  {
    var rest := WithoutId(products, products[k].id);
    RestMisses(products, k, term);
    NothingMatches(rest, term);
  }

  /** A lookup where no row matches fails. */
  lemma NothingMatches(catalog: seq<Product>, term: string)
    requires forall p :: p in catalog ==> !Matches(term, p)
    ensures FindOne(catalog, term).Failure?
  {
  }

  /** No row left after removing row k matches a uuid term naming row k. */
  lemma RestMisses(products: seq<Product>, k: nat, term: string)
    requires DistinctIds(products) && k < |products|
    requires IsUuid(term) && SameId(products[k].id, term)
    ensures forall p :: p in products && p.id != products[k].id ==> !Matches(term, p)
  {
    OtherRowsMiss(products, k, term);
    forall p | p in products && p.id != products[k].id ensures !Matches(term, p) {
      OtherIdMisses(term, p);
    }
  }

  /** Every row whose id is spelled otherwise than row k's is another uuid value. */
  lemma OtherRowsMiss(products: seq<Product>, k: nat, term: string)
    requires DistinctIds(products) && k < |products| && SameId(products[k].id, term)
    ensures forall p :: p in products && p.id != products[k].id ==> !SameId(p.id, term)
  {
    OnlyRowWithId(products, k, term);
    forall p | p in products && p.id != products[k].id ensures !SameId(p.id, term) {
      var j :| 0 <= j < |products| && products[j] == p;
      assert j != k;
    }
  }

  /** A uuid term misses a row whose id is another uuid value. */
  lemma OtherIdMisses(term: string, p: Product)
    requires IsUuid(term) && !SameId(p.id, term)
    ensures !Matches(term, p)
  {
  }

  class ProductsService {
    /** The product table, with each row's images. */
    var products: seq<Product>
    /** Every call made on a query runner, in order. */
    var queryRunnerCalls: seq<QueryRunnerCall>

    ghost predicate Valid()
      reads this
    {
      DistinctIds(products)
    }

    constructor (products: seq<Product>)
      requires DistinctIds(products)
      ensures Valid() && this.products == products && queryRunnerCalls == []
    {
      this.products := products;
      queryRunnerCalls := [];
    }

    /** create: build the entity with its images, save it, and return it with
        the url list it was given; a failed save goes to handleExceptions.
        `newId` is the UUID the database generates for the new row. */
    method Create(dto: CreateDto, user: Option<UserId>, newId: string, saveError: Option<DbError>)
      returns (r: Reply<PlainProduct>)
      requires Valid()
      requires forall k :: 0 <= k < |products| ==> !SameId(products[k].id, newId)
      modifies this
      ensures Valid() && queryRunnerCalls == old(queryRunnerCalls)
      ensures saveError.None? ==>
        && products == old(products) + [NewProduct(dto, newId, user)]
        && r == Returned(CreatedReply(dto, newId, user))
        && r.value.images == dto.images.GetOr([])
      ensures saveError.Some? ==> products == old(products) && r == Caught(HandleExceptions(saveError.value))
    {
      var images := dto.images.GetOr([]);
      var product := Product(newId, dto.title, dto.slug, dto.columns, ImagesFromUrls(images), user);
      if saveError.Some? {
        r := Caught(HandleExceptions(saveError.value));
        return;
      }
      products := products + [product];
      r := Returned(PlainProduct(product.id, product.title, product.slug, product.columns, images, product.user));
    }

    /** update: preload the row by id (BadRequest before any transaction when
        it is missing), then in one transaction delete and replace its images
        when some are supplied, set its user and save it; commit and return
        findOnePlain(id), or roll back and hand the error to handleExceptions.
        `failure` is the error of the delete or the save, when one fails.
        The product saved is `Updated`, which keeps the stored images when
        none are supplied, where the code as written (`UpdatedAsWritten`)
        saves none. */
    method Update(id: string, dto: UpdateDto, user: Option<UserId>, failure: Option<DbError>)
      returns (r: Reply<PlainProduct>)
      requires Valid()
      modifies this
      ensures Valid()
      ensures IndexOfId(old(products), id).None? ==>
        && products == old(products)
        && queryRunnerCalls == old(queryRunnerCalls)
        && r == Threw(Http(BadRequest(NoProductWithId(id))))
      ensures IndexOfId(old(products), id).Some? ==>
        var k := IndexOfId(old(products), id).value;
        var begun := [Connect, StartTransaction] + (if dto.images.Some? then [DeleteImages(id)] else []);
        && (failure.Some? ==>
              && products == old(products)
              && queryRunnerCalls == old(queryRunnerCalls) + begun + [RollbackTransaction, Release]
              && r == Caught(HandleExceptions(failure.value)))
        && (failure.None? ==>
              && products == old(products)[k := Updated(old(products)[k], dto, user)]
              && queryRunnerCalls == old(queryRunnerCalls) + begun + [Save, CommitTransaction, Release]
              && r == Settled(FindOnePlain(products, id)))
    {
      var found := IndexOfId(products, id);
      if found.None? {
        r := Threw(Http(BadRequest(NoProductWithId(id))));
        return;
      }
      var k := found.value;
      var stored := products[k];
      var product := Product(stored.id, dto.title.GetOr(stored.title), MergedSlug(stored, dto),
                             stored.columns + dto.columns, stored.images, user);

      ghost var begun := [Connect, StartTransaction] + (if dto.images.Some? then [DeleteImages(id)] else []);
      ghost var log := queryRunnerCalls;
      BeginTransaction(id, dto.images.Some?);
      assert queryRunnerCalls == log + begun;
      if dto.images.Some? {
        product := product.(images := ImagesFromUrls(dto.images.value));
      }
      product := product.(user := user);

      if failure.Some? {
        RollBack();
        assert queryRunnerCalls == log + begun + [RollbackTransaction, Release];
        r := Caught(HandleExceptions(failure.value));
        return;
      }
      assert product == Updated(stored, dto, user);
      CommitSave(k, product);
      assert queryRunnerCalls == log + begun + [Save, CommitTransaction, Release];
      r := Settled(FindOnePlain(products, id));
    }

    /** Connect a query runner and start a transaction; when images are
        supplied, delete the product's stored images inside it. */
    method BeginTransaction(id: string, deletesImages: bool)
      modifies this
      ensures products == old(products)
      ensures queryRunnerCalls == old(queryRunnerCalls) + [Connect, StartTransaction]
        + (if deletesImages then [DeleteImages(id)] else [])
    {
      queryRunnerCalls := queryRunnerCalls + [Connect];
      queryRunnerCalls := queryRunnerCalls + [StartTransaction];
      if deletesImages {
        queryRunnerCalls := queryRunnerCalls + [DeleteImages(id)];
      }
    }

    /** Save the product over row k, commit, and release the query runner. */
    method CommitSave(k: nat, product: Product)
      requires Valid() && k < |products| && product.id == products[k].id
      modifies this
      ensures Valid()
      ensures products == old(products)[k := product]
      ensures queryRunnerCalls == old(queryRunnerCalls) + [Save, CommitTransaction, Release]
    {
      ReplaceKeepsDistinct(products, k, product);
      queryRunnerCalls := queryRunnerCalls + [Save];
      products := products[k := product];
      queryRunnerCalls := queryRunnerCalls + [CommitTransaction];
      queryRunnerCalls := queryRunnerCalls + [Release];
    }

    /** Roll the transaction back and release the query runner. */
    method RollBack()
      modifies this
      ensures products == old(products)
      ensures queryRunnerCalls == old(queryRunnerCalls) + [RollbackTransaction, Release]
    {
      queryRunnerCalls := queryRunnerCalls + [RollbackTransaction];
      queryRunnerCalls := queryRunnerCalls + [Release];
    }

    /** remove: find the product by term (NotFound when none matches), delete
        its row, and return it. `deleteError` is the error of the delete,
        when it fails: there is no catch block, so it reaches the caller
        as thrown, without going through handleExceptions. */
    method Remove(term: string, deleteError: Option<DbError>) returns (r: Reply<Product>)
      requires Valid()
      modifies this
      ensures Valid() && queryRunnerCalls == old(queryRunnerCalls)
      ensures FindOne(old(products), term).Failure? ==>
        products == old(products) && r == Threw(Http(NotFound(term)))
      ensures FindOne(old(products), term).Success? && deleteError.Some? ==>
        products == old(products) && r == Threw(Uncaught(deleteError.value))
      ensures FindOne(old(products), term).Success? && deleteError.None? ==>
        && r == Returned(FindOne(old(products), term).value)
        && products == WithoutId(old(products), r.value.id)
    {
      var found := FindOne(products, term);
      if found.Failure? {
        r := Threw(Http(found.error));
        return;
      }
      if deleteError.Some? {
        r := Threw(Uncaught(deleteError.value));
        return;
      }
      products := WithoutId(products, found.value.id);
      r := Returned(found.value);
    }
  }
}
