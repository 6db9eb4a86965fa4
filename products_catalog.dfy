/** The product catalog as the product service reads and shapes it: the
    paginated listing (`findAll`), the lookup by id, title or slug
    (`findOne`, `findOnePlain`), the value `create` returns, and the product
    that `update` saves. The catalog is the sequence of product rows in the
    order the database returns them, each with its images relation loaded. */
module ProductsCatalog {
  import opened Wrappers
  import opened AsciiText
  import opened UuidFormat
  import opened ProductsErrors

  type UserId = string

  datatype ProductImage = ProductImage(url: string)

  /** A product row. `columns` holds the remaining columns (price,
      description, stock, sizes, gender, tags) by name. */
  datatype Product = Product(id: string, title: string, slug: string, columns: map<string, string>,
                             images: seq<ProductImage>, user: Option<UserId>)

  /** A product as the service hands it out, its images reduced to urls. */
  datatype PlainProduct = PlainProduct(id: string, title: string, slug: string, columns: map<string, string>,
                                       images: seq<string>, user: Option<UserId>)

  /** The body of POST /products. */
  datatype CreateDto = CreateDto(title: string, slug: string, columns: map<string, string>, images: Option<seq<string>>)

  /** The body of PATCH /products/:id; every field may be left out. */
  datatype UpdateDto = UpdateDto(title: Option<string>, slug: Option<string>, columns: map<string, string>,
                                 images: Option<seq<string>>)

  const DefaultLimit: nat := 10
  const DefaultOffset: nat := 0

  // ----- images and urls -----

  /** `images.map(img => img.url)`. */
  function Urls(images: seq<ProductImage>): (urls: seq<string>)
    ensures |urls| == |images|
    ensures forall k :: 0 <= k < |images| ==> urls[k] == images[k].url
    decreases |images|
  {
    if images == [] then [] else [images[0].url] + Urls(images[1..])
  }

  /** `images.map(image => productImageRepository.create({url: image}))`. */
  function ImagesFromUrls(urls: seq<string>): (images: seq<ProductImage>)
    ensures |images| == |urls|
    ensures forall k :: 0 <= k < |urls| ==> images[k].url == urls[k]
    decreases |urls|
  {
    if urls == [] then [] else [ProductImage(urls[0])] + ImagesFromUrls(urls[1..])
  }

  /** Turning urls into image entities and back gives the same urls. */
  lemma {:induction false} UrlsRoundTrip(urls: seq<string>)
    ensures Urls(ImagesFromUrls(urls)) == urls
    decreases |urls|
  {
    if urls != [] {
      UrlsRoundTrip(urls[1..]);
      assert ImagesFromUrls(urls)[1..] == ImagesFromUrls(urls[1..]);
    }
  }

  /** `q` is `p` with its images replaced by their urls, in the same order,
      and every other field as it was. */
  predicate Flattens(p: Product, q: PlainProduct)
  {
    && q.id == p.id && q.title == p.title && q.slug == p.slug
    && q.columns == p.columns && q.user == p.user
    && |q.images| == |p.images|
    && (forall k :: 0 <= k < |p.images| ==> q.images[k] == p.images[k].url)
  }

  /** `{...product, images: product.images.map(img => img.url)}`. */
  function Plain(p: Product): (q: PlainProduct)
    ensures Flattens(p, q)
  {
    PlainProduct(p.id, p.title, p.slug, p.columns, Urls(p.images), p.user)
  }

  /** `products.map(product => ...)` over a page of rows. */
  function PlainAll(rows: seq<Product>): (page: seq<PlainProduct>)
    ensures |page| == |rows|
    ensures forall k :: 0 <= k < |rows| ==> Flattens(rows[k], page[k])
  {
    seq(|rows|, k requires 0 <= k < |rows| => Plain(rows[k]))
  }

  /** Flattening a catalog page by page gives the pages of the flattened
      catalog. */
  lemma PlainAllAppend(a: seq<Product>, b: seq<Product>)
    ensures PlainAll(a + b) == PlainAll(a) + PlainAll(b)
  {
    forall k | 0 <= k < |a| + |b|
      ensures PlainAll(a + b)[k] == (PlainAll(a) + PlainAll(b))[k]
    {
      if k < |a| {
        assert (a + b)[k] == a[k];
      } else {
        assert (a + b)[k] == b[k - |a|];
      }
    }
  }

  // ----- findAll -----

  function Min(a: nat, b: nat): nat
  {
    if a <= b then a else b
  }

  /** The rows `find({take, skip})` returns. */
  function Window(catalog: seq<Product>, take: nat, skip: nat): seq<Product>
  {
    if skip >= |catalog| then [] else catalog[skip..skip + Min(take, |catalog| - skip)]
  }

  /** findAll: at most `limit` products (10 when absent) starting at index
      `offset` (0 when absent), each with its images flattened to urls. */
  function FindAll(catalog: seq<Product>, limit: Option<nat>, offset: Option<nat>): (page: seq<PlainProduct>)
    ensures |page| <= limit.GetOr(DefaultLimit)
    ensures |page| == if offset.GetOr(DefaultOffset) >= |catalog| then 0
                      else Min(limit.GetOr(DefaultLimit), |catalog| - offset.GetOr(DefaultOffset))
    ensures forall k :: 0 <= k < |page| ==> Flattens(catalog[offset.GetOr(DefaultOffset) + k], page[k])
  {
    PlainAll(Window(catalog, limit.GetOr(DefaultLimit), offset.GetOr(DefaultOffset)))
  }

  /** Two consecutive pages together are the page of their combined size:
      paging through the catalog skips and repeats nothing. */
  lemma {:induction false} ConsecutivePages(catalog: seq<Product>, n: nat, m: nat, offset: nat)
    ensures FindAll(catalog, Some(n), Some(offset)) + FindAll(catalog, Some(m), Some(offset + n))
            == FindAll(catalog, Some(n + m), Some(offset))
  {
    calc {
      FindAll(catalog, Some(n), Some(offset)) + FindAll(catalog, Some(m), Some(offset + n));
      { FindAllIsPage(catalog, n, offset); FindAllIsPage(catalog, m, offset + n); }
      PlainAll(Window(catalog, n, offset)) + PlainAll(Window(catalog, m, offset + n));
      { PagesConcat(catalog, n, m, offset); }
      PlainAll(Window(catalog, n + m, offset));
      { FindAllIsPage(catalog, n + m, offset); }
      FindAll(catalog, Some(n + m), Some(offset));
    }
  }

  lemma PagesConcat(catalog: seq<Product>, n: nat, m: nat, offset: nat)
    ensures PlainAll(Window(catalog, n, offset)) + PlainAll(Window(catalog, m, offset + n))
            == PlainAll(Window(catalog, n + m, offset))
  {
    var a, b, c := Window(catalog, n, offset), Window(catalog, m, offset + n), Window(catalog, n + m, offset);
    WindowsConcat(catalog, n, m, offset);
    PlainAllAppend(a, b);
    assert PlainAll(a + b) == PlainAll(c);
  }

  lemma FindAllIsPage(catalog: seq<Product>, n: nat, offset: nat)
    ensures FindAll(catalog, Some(n), Some(offset)) == PlainAll(Window(catalog, n, offset))
  {
  }

  lemma {:induction false} WindowsConcat(catalog: seq<Product>, n: nat, m: nat, offset: nat)
    ensures Window(catalog, n, offset) + Window(catalog, m, offset + n) == Window(catalog, n + m, offset)
  {
    if offset < |catalog| && offset + n < |catalog| {
      assert catalog[offset..offset + n] + catalog[offset + n..offset + n + Min(m, |catalog| - offset - n)]
          == catalog[offset..offset + n + Min(m, |catalog| - offset - n)];
    }
  }

  // ----- findOne and findOnePlain -----

  /** Two spellings of one UUID: PostgreSQL compares `uuid` values, so ids
      that differ only in the letter case of their hexadecimal digits name
      the same row. */
  predicate SameId(a: string, b: string)
  {
    Lower(a) == Lower(b)
  }

  /** The lookup rule: by id when the term is a UUID, otherwise by title
      ignoring case or by slug equal to the lower-cased term. */
  predicate Matches(term: string, p: Product)
  {
    if IsUuid(term) then SameId(p.id, term)
    else Upper(p.title) == Upper(term) || p.slug == Lower(term)
  }

  /** The index of the first row the term matches. */
  function FirstMatching(catalog: seq<Product>, term: string): (k: Option<nat>)
    ensures k.Some? ==> k.value < |catalog| && Matches(term, catalog[k.value])
    ensures k.Some? ==> forall j :: 0 <= j < k.value ==> !Matches(term, catalog[j])
    ensures k.None? ==> forall j :: 0 <= j < |catalog| ==> !Matches(term, catalog[j])
    decreases |catalog|
  {
    if catalog == [] then None
    else if Matches(term, catalog[0]) then Some(0)
    else match FirstMatching(catalog[1..], term)
      case None => None
      case Some(k) => Some(k + 1)
  }

  /** The only row a term matches is the one the lookup finds. */
  lemma OnlyMatch(catalog: seq<Product>, k: nat, term: string)
    requires k < |catalog| && Matches(term, catalog[k])
    requires forall j :: 0 <= j < |catalog| && j != k ==> !Matches(term, catalog[j])
    ensures FirstMatching(catalog, term) == Some(k)
  {
  }

  /** findOne: the first product the term matches, or NotFound exactly when
      none does. */
  function FindOne(catalog: seq<Product>, term: string): (r: Result<Product, HttpException>)
    ensures r.Success? ==> r.value in catalog && Matches(term, r.value)
    ensures r.Failure? <==> forall p :: p in catalog ==> !Matches(term, p)
    ensures r.Failure? ==> r.error == NotFound(term)
  {
    match FirstMatching(catalog, term)
    case Some(k) => Success(catalog[k])
    case None => Failure(NotFound(term))
  }

  /** findOnePlain: what findOne finds, with its images flattened to urls. */
  function FindOnePlain(catalog: seq<Product>, term: string): (r: Result<PlainProduct, HttpException>)
    ensures r.Success? <==> FindOne(catalog, term).Success?
    ensures r.Success? ==> Flattens(FindOne(catalog, term).value, r.value)
    ensures r.Failure? ==> r.error == NotFound(term)
  {
    match FindOne(catalog, term)
    case Success(p) => Success(Plain(p))
    case Failure(e) => Failure(e)
  }

  /** A term finds the same product in any letter case: a UUID is compared
      as a `uuid` value, titles are compared upper-cased, and slugs against
      the lower-cased term. */
  lemma LookupIgnoresTermCase(catalog: seq<Product>, term: string)
    ensures FirstMatching(catalog, Upper(term)) == FirstMatching(catalog, term)
  {
    forall p ensures Matches(Upper(term), p) <==> Matches(term, p) {
      MatchesIgnoresTermCase(term, p);
    }
    var a, b := FirstMatching(catalog, Upper(term)), FirstMatching(catalog, term);
    if a.Some? && b.Some? {
      assert !(a.value < b.value) && !(b.value < a.value);
    }
  }

  lemma MatchesIgnoresTermCase(term: string, p: Product)
    ensures Matches(Upper(term), p) <==> Matches(term, p)
  {
    IsUuidIgnoresCase(term);
    CaseMappingAbsorbs(term);
  }

  /** A UUID is never matched against titles or slugs: only a product whose
      id is that UUID is found. */
  lemma UuidTermFindsOnlyById(catalog: seq<Product>, term: string)
    requires IsUuid(term)
    ensures FindOne(catalog, term).Success? <==> exists k :: 0 <= k < |catalog| && SameId(catalog[k].id, term)
    ensures FindOne(catalog, term).Success? ==> SameId(FindOne(catalog, term).value.id, term)
  {
    if FindOne(catalog, term).Failure? {
      forall k | 0 <= k < |catalog| ensures !SameId(catalog[k].id, term) {
        assert !Matches(term, catalog[k]);
      }
    }
  }

  // ----- create -----

  /** The entity `create` builds and saves. */
  function NewProduct(dto: CreateDto, id: string, user: Option<UserId>): Product
  {
    Product(id, dto.title, dto.slug, dto.columns, ImagesFromUrls(dto.images.GetOr([])), user)
  }

  /** `{...product, images}`: what `create` returns, with the images it was
      given (none when absent), which is also the saved product flattened. */
  function CreatedReply(dto: CreateDto, id: string, user: Option<UserId>): (r: PlainProduct)
    ensures r.images == dto.images.GetOr([])
    ensures r == Plain(NewProduct(dto, id, user))
  {
    UrlsRoundTrip(dto.images.GetOr([]));
    var product := NewProduct(dto, id, user);
    PlainProduct(product.id, product.title, product.slug, product.columns, dto.images.GetOr([]), product.user)
  }

  // ----- update -----

  /** The slug that `preload({id, slug: title, ...dto})` merges: the given
      slug, else the given title, else the stored slug. */
  function MergedSlug(stored: Product, dto: UpdateDto): string
  {
    if dto.slug.Some? then dto.slug.value else dto.title.GetOr(stored.slug)
  }

  /** The product `update` saves, as the code is written: the preload call
      passes `images: []`, so when no images are supplied the saved product
      has none. This reads `preload` as replacing the loaded images with the
      `[]` it is given. */
  function UpdatedAsWritten(stored: Product, dto: UpdateDto, user: Option<UserId>): (p: Product)
    ensures p.id == stored.id && p.user == user
    ensures p.title == dto.title.GetOr(stored.title)
    ensures p.slug == if dto.slug.Some? then dto.slug.value else dto.title.GetOr(stored.slug)
    ensures p.columns.Keys == stored.columns.Keys + dto.columns.Keys
    ensures forall c :: c in p.columns ==> p.columns[c] == if c in dto.columns then dto.columns[c] else stored.columns[c]
    ensures dto.images.None? ==> p.images == []
    ensures dto.images.Some? ==> Urls(p.images) == dto.images.value
  {
    UrlsRoundTrip(dto.images.GetOr([]));
    var preloaded := Product(stored.id, dto.title.GetOr(stored.title), MergedSlug(stored, dto),
                             stored.columns + dto.columns, [], user);
    var withImages := if dto.images.Some? then preloaded.(images := ImagesFromUrls(dto.images.value)) else preloaded;
    withImages.(user := user)
  }

  /** An update that supplies no images wipes the images of a product that
      has some. */
  lemma UpdateWithoutImagesDropsThem(stored: Product, dto: UpdateDto, user: Option<UserId>)
    requires stored.images != [] && dto.images.None?
    ensures UpdatedAsWritten(stored, dto, user).images == []
    ensures UpdatedAsWritten(stored, dto, user).images != stored.images
  {
  }

  /** The product `update` saves, with images replaced only when some are
      supplied: the stored images are kept otherwise. */
  function Updated(stored: Product, dto: UpdateDto, user: Option<UserId>): (p: Product)
    ensures p.id == stored.id && p.user == user
    ensures p.title == dto.title.GetOr(stored.title)
    ensures p.slug == if dto.slug.Some? then dto.slug.value else dto.title.GetOr(stored.slug)
    ensures p.columns.Keys == stored.columns.Keys + dto.columns.Keys
    ensures forall c :: c in p.columns ==> p.columns[c] == if c in dto.columns then dto.columns[c] else stored.columns[c]
    ensures dto.images.None? ==> p.images == stored.images
    ensures dto.images.Some? ==> Urls(p.images) == dto.images.value
  {
    UrlsRoundTrip(dto.images.GetOr([]));
    var preloaded := Product(stored.id, dto.title.GetOr(stored.title), MergedSlug(stored, dto),
                             stored.columns + dto.columns, stored.images, user);
    var withImages := if dto.images.Some? then preloaded.(images := ImagesFromUrls(dto.images.value)) else preloaded;
    withImages.(user := user)
  }

  /** The two agree whenever images are supplied. */
  lemma UpdatedAgreesWithImages(stored: Product, dto: UpdateDto, user: Option<UserId>)
    requires dto.images.Some?
    ensures Updated(stored, dto, user) == UpdatedAsWritten(stored, dto, user)
  {
  }
}
