/** `ProductsService`: creation, paginated listing, lookup by id or by natural
    key, transactional update, removal and bulk deletion over the store, and
    the one place where backend errors are classified. */
module Products {
  import opened Wrappers
  import opened Text
  import opened ProductEntity
  import opened Store
  import opened ProductDto

  /** The exceptions the service throws. `Unhandled` is a backend error that
      reaches the caller without passing through the classifier. */
  datatype Exception =
    | NotFound(message: string)
    | BadRequest(message: string)
    | InternalServerError(message: string)
    | Unhandled(error: DbError)

  /** What every read-oriented path returns: the product's columns and the
      URLs of its images, never the image rows. */
  datatype ProductView = ProductView(product: Product, images: seq<string>)

  /** A product as `findOne` loads it: the image relation is either loaded or absent. */
  datatype LoadedProduct = LoadedProduct(product: Product, images: Option<seq<ImageRow>>)

  datatype Pagination = Pagination(limit: Option<nat>, offset: Option<nat>)

  const UnexpectedErrorMessage: string := "Unexpected error, check logs"

  // ---------------------------------------------------------------- errors

  /** The error classifier: a unique violation becomes a bad request carrying
      the backend's detail, everything else an internal error whose message
      hides the detail. It never yields a normal result. */
  function HandleDbExceptions(error: DbError): (x: Exception)
    ensures x.BadRequest? || x.InternalServerError?
    ensures x.BadRequest? <==> error.code == UniqueViolation
    ensures x.BadRequest? ==> x.message == error.detail
    ensures x.InternalServerError? ==> x.message == UnexpectedErrorMessage
  {
    if error.code == UniqueViolation then BadRequest(error.detail)
    else InternalServerError(UnexpectedErrorMessage)
  }

  /** Two errors that are not unique violations are indistinguishable to the caller. */
  lemma InternalErrorsHideDetail(e1: DbError, e2: DbError)
    requires e1.code != UniqueViolation && e2.code != UniqueViolation
    ensures HandleDbExceptions(e1) == HandleDbExceptions(e2)
  {
  }

  function ProductNotFound(term: string): string {
    "Product with id: #" + term + " not found."
  }

  function PreloadNotFound(id: string): string {
    "Producto with id: #" + id + " not found"
  }

  // ---------------------------------------------------------------- findAll

  /** `skip` rows dropped, then at most `take` rows kept; a `take` of 0 keeps them all. */
  function Page<T>(rows: seq<T>, take: nat, skip: nat): (r: seq<T>)
    ensures take > 0 ==> |r| <= take
    ensures forall k :: 0 <= k < |r| ==> skip + k < |rows| && r[k] == rows[skip + k]
    ensures |r| == (if skip >= |rows| then 0 else if take == 0 || |rows| - skip <= take then |rows| - skip else take)
  {
    var rest := if skip >= |rows| then [] else rows[skip..];
    if take == 0 || |rest| <= take then rest else rest[..take]
  }

  /** The view of a product with its image relation loaded. */
  function ViewWithImages(db: Database, p: Product): ProductView {
    ProductView(p, OwnedUrls(db, p.id))
  }

  /** `findAll`: `limit` and `offset` default to 0, the page keeps every
      column of each product and replaces its images by their URLs in order. */
  function FindAll(db: Database, pagination: Pagination): (r: seq<ProductView>)
    ensures pagination.limit.Some? && pagination.limit.value > 0 ==> |r| <= pagination.limit.value
    ensures forall k :: 0 <= k < |r| ==>
      var i := pagination.offset.GetOr(0) + k;
      i < |db.products| && r[k].product == db.products[i] && r[k].images == OwnedUrls(db, db.products[i].id)
    ensures
      var rest := if pagination.offset.GetOr(0) >= |db.products| then 0 else |db.products| - pagination.offset.GetOr(0);
      |r| == if pagination.limit.GetOr(0) == 0 || rest <= pagination.limit.GetOr(0) then rest else pagination.limit.GetOr(0)
  {
    var page := Page(db.products, pagination.limit.GetOr(0), pagination.offset.GetOr(0));
    seq(|page|, k requires 0 <= k < |page| => ViewWithImages(db, page[k]))
  }

  /** After the bulk delete, every page is empty. */
  lemma FindAllAfterRemoveAll(db: Database, pagination: Pagination)
    ensures FindAll(RemoveAll(db), pagination) == []
  {
  }

  // ---------------------------------------------------------------- findOne

  /** The natural-key condition: upper-cased title equals the upper-cased
      term, or the stored slug equals the lower-cased term exactly. */
  predicate NaturalKeyMatch(p: Product, term: string) {
    Upper(p.title) == Upper(term) || p.slug == Lower(term)
  }

  /** The first row, in storage order, that the natural-key condition accepts. */
  function IndexOfNaturalKey(rows: seq<Product>, term: string): (r: Option<nat>)
    ensures r.None? <==> forall j :: 0 <= j < |rows| ==> !NaturalKeyMatch(rows[j], term)
    ensures r.Some? ==> r.value < |rows| && NaturalKeyMatch(rows[r.value], term)
    ensures r.Some? ==> forall j :: 0 <= j < r.value ==> !NaturalKeyMatch(rows[j], term)
  {
    if rows == [] then None
    else if NaturalKeyMatch(rows[0], term) then Some(0)
    else
      var rest := IndexOfNaturalKey(rows[1..], term);
      if rest.None? then None else Some(rest.value + 1)
  }

  /** `findOne`: a UUID-shaped term is matched on id alone, whatever the case
      of its hexadecimal digits (the column holds `uuid` values), and loaded
      without its images; any other term is matched on the natural key and loaded
      with its images. No match is a NotFound that echoes the term. */
  function FindOne(db: Database, term: string): (r: Result<LoadedProduct, Exception>)
    ensures r.Failure? ==> r.error == NotFound(ProductNotFound(term))
    ensures IsUuid(term) ==> (r.Success? <==> Lower(term) in Ids(db.products))
    ensures IsUuid(term) && r.Success? ==>
      r.value.product.id == Lower(term) && r.value.product in db.products && r.value.images.None?
    ensures !IsUuid(term) ==> (r.Success? <==> exists j :: 0 <= j < |db.products| && NaturalKeyMatch(db.products[j], term))
    ensures !IsUuid(term) && r.Success? ==>
      && NaturalKeyMatch(r.value.product, term) && r.value.product in db.products
      && r.value.images == Some(OwnedBy(db.images, r.value.product.id))
  {
    if IsUuid(term) then
      match IndexOfId(db.products, Lower(term))
      case Some(k) => Success(LoadedProduct(db.products[k], None))
      case None => Failure(NotFound(ProductNotFound(term)))
    else
      match IndexOfNaturalKey(db.products, term)
      case Some(k) =>
        var p := db.products[k];
        Success(LoadedProduct(p, Some(OwnedBy(db.images, p.id))))
      case None => Failure(NotFound(ProductNotFound(term)))
  }

  /** `findOnePlain`: `findOne` with the image relation flattened to URLs, `[]`
      when it was not loaded. */
  function FindOnePlain(db: Database, term: string): (r: Result<ProductView, Exception>)
    ensures r.Success? <==> FindOne(db, term).Success?
    ensures r.Failure? ==> r.error == NotFound(ProductNotFound(term))
    ensures r.Success? ==> r.value.product == FindOne(db, term).value.product
    ensures IsUuid(term) && r.Success? ==> r.value.images == []
    ensures !IsUuid(term) && r.Success? ==> r.value.images == OwnedUrls(db, r.value.product.id)
  {
    match FindOne(db, term)
    case Success(loaded) => Success(ProductView(loaded.product, Urls(loaded.images.GetOr([]))))
    case Failure(e) => Failure(e)
  }

  /** Every stored product is found by its own id. */
  lemma StoredProductFoundById(db: Database, k: nat)
    requires Valid(db) && k < |db.products|
    ensures FindOne(db, db.products[k].id) == Success(LoadedProduct(db.products[k], None))
    ensures FindOnePlain(db, db.products[k].id) == Success(ProductView(db.products[k], []))
  {
    IndexOfStoredId(db.products, k);
  }

  /** A UUID term finds the stored product whatever the case of its digits. */
  lemma UuidTermFoundInAnyCase(db: Database, k: nat, term: string)
    requires Valid(db) && k < |db.products| && Lower(term) == db.products[k].id
    ensures FindOne(db, term) == Success(LoadedProduct(db.products[k], None))
    ensures FindOnePlain(db, term) == Success(ProductView(db.products[k], []))
  {
    UuidShapeIgnoresCase(term);
    IndexOfStoredId(db.products, k);
  }

  /** The slug comparison is against the lower-cased term, so a stored slug
      holding an upper-case letter is never matched by slug, whatever the term. */
  lemma UpperCaseSlugNeverMatched(p: Product, term: string, i: nat)
    requires i < |p.slug| && IsUpperLetter(p.slug[i])
    ensures p.slug != Lower(term)
  {
    if p.slug == Lower(term) {
      LowerIdempotent(term);
      LowerFixedIffNoUpper(p.slug);
    }
  }

  /** A natural-key lookup by a product's slug can return another product:
      the title and slug comparisons run in one query and the first row in
      storage order wins, so an earlier product whose title equals the slug
      (up to case; here exactly) shadows it, although titles and slugs are
      each unique. */
  lemma TitleShadowsSlug(idA: string, idB: string)
    requires idA != idB
    ensures
      var a := Product(idA, "pants1", 1.0, None, "a", 0, [], "men");
      var b := Product(idB, "Shirt1", 1.0, None, "pants1", 0, [], "men");
      var db := Database([a, b], [], 0);
      && UniqueColumns(db.products)
      && FindOne(db, b.slug) == Success(LoadedProduct(a, Some([])))
  {
    var a := Product(idA, "pants1", 1.0, None, "a", 0, [], "men");
    var b := Product(idB, "Shirt1", 1.0, None, "pants1", 0, [], "men");
    assert "pants1"[0] != "Shirt1"[0] && |"a"| != |"pants1"|;
    assert !IsUuid(b.slug);
    assert NaturalKeyMatch(a, b.slug);
    assert IndexOfNaturalKey([a, b], b.slug) == Some(0);
  }

  // ---------------------------------------------------------------- create and update inputs

  /** The body without `images` and `tags` (the entity has no `tags` column),
      as the repository builds the entity from it. */
  function ProductDetails(dto: CreateProductDto): (d: ProductDraft)
    requires IsValid(dto)
    ensures d.title == dto.title && |d.title| >= MinTitleLength && d.gender in Genders
    ensures d.price == dto.price && (d.price.Some? ==> d.price.value > 0.0)
    ensures d.description == dto.description && d.slug == dto.slug && d.sizes == dto.sizes
    ensures d.stock.None? <==> dto.stock.None?
    ensures d.stock.Some? ==> d.stock.value > 0 && d.stock.value as real == dto.stock.value
  {
    ProductDraft(dto.title, dto.price, dto.description, dto.slug, StockCount(dto.stock), dto.sizes, dto.gender)
  }

  /** `preload`: the stored row with every field present in the patch
      overwritten and every other field kept. */
  function Preload(p: Product, patch: UpdateProductDto): (q: Product)
    requires IsValidPatch(patch)
    ensures q.id == p.id
    ensures q.title == patch.title.GetOr(p.title) && q.price == patch.price.GetOr(p.price)
    ensures q.slug == patch.slug.GetOr(p.slug) && q.sizes == patch.sizes.GetOr(p.sizes)
    ensures q.gender == patch.gender.GetOr(p.gender)
    ensures q.description == (if patch.description.Some? then patch.description else p.description)
    ensures patch.stock.None? ==> q.stock == p.stock
    ensures patch.stock.Some? ==> q.stock as real == patch.stock.value
  {
    var stock := StockCount(patch.stock);
    Product(p.id, patch.title.GetOr(p.title), patch.price.GetOr(p.price),
            if patch.description.Some? then patch.description else p.description,
            patch.slug.GetOr(p.slug), stock.GetOr(p.stock), patch.sizes.GetOr(p.sizes),
            patch.gender.GetOr(p.gender))
  }

  /** Applying the same patch twice is applying it once. */
  lemma PreloadIdempotent(p: Product, patch: UpdateProductDto)
    requires IsValidPatch(patch)
    ensures Preload(Preload(p, patch), patch) == Preload(p, patch)
  {
  }

  /** A patch that carries no field leaves the row as stored. */
  lemma EmptyPatchKeepsRow(p: Product)
    ensures Preload(p, UpdateProductDto(None, None, None, None, None, None, None, None, None)) == p
  {
  }

  // ---------------------------------------------------------------- update's transaction

  /** Calls made on the query runner during `update`. */
  datatype RunnerCall = Connect | StartTransaction | CommitTransaction | RollbackTransaction | Release

  /** A backend failure injected at one step of `update`; the step fails when it is reached. */
  datatype UpdateStep = AtConnect | AtStartTransaction | AtDeleteImages | AtFindImages | AtSave | AtCommit
  datatype UpdateFault = NoFault | FailAt(step: UpdateStep, error: DbError)

  /** The failure the step `step` meets, given the fault. */
  function FailureAt(fault: UpdateFault, step: UpdateStep): Option<DbError> {
    if fault.FailAt? && fault.step == step then Some(fault.error) else None
  }

  /** Whether `update` gets as far as an open transaction. */
  predicate TransactionOpened(db: Database, id: string, fault: UpdateFault) {
    id in Ids(db.products) && FailureAt(fault, AtConnect).None? && FailureAt(fault, AtStartTransaction).None?
  }

  /** The failure, if any, met by the work between `startTransaction` and
      `commitTransaction`: reading or deleting the images, then the save. */
  function FailureBeforeCommit(db: Database, k: nat, patch: UpdateProductDto, fault: UpdateFault): Option<DbError>
    requires k < |db.products| && IsValidPatch(patch)
  {
    var reading := if patch.images.Some? then FailureAt(fault, AtDeleteImages) else FailureAt(fault, AtFindImages);
    if reading.Some? then reading
    else if FailureAt(fault, AtSave).Some? then FailureAt(fault, AtSave)
    else Conflict(db.products, Preload(db.products[k], patch), false)
  }

  /** The failure, if any, that makes `update` roll back. */
  function FailureInTransaction(db: Database, k: nat, patch: UpdateProductDto, fault: UpdateFault): Option<DbError>
    requires k < |db.products| && IsValidPatch(patch)
  {
    var work := FailureBeforeCommit(db, k, patch, fault);
    if work.Some? then work else FailureAt(fault, AtCommit)
  }

  /** The runner calls after `startTransaction`: commit and release when
      everything succeeded; otherwise the commit if it was attempted, then
      rollback and release. */
  function TransactionTail(workDone: bool, committed: bool): seq<RunnerCall> {
    if committed then [CommitTransaction, Release]
    else (if workDone then [CommitTransaction] else []) + [RollbackTransaction, Release]
  }

  /** Once the transaction is open, the runner is released exactly once, as
      the last call, and a rollback happens exactly when nothing was committed. */
  lemma ReleasedExactlyOnce(workDone: bool, committed: bool)
    requires committed ==> workDone
    ensures var calls := [Connect, StartTransaction] + TransactionTail(workDone, committed);
      && multiset(calls)[Release] == 1 && calls[|calls| - 1] == Release
      && (RollbackTransaction in calls <==> !committed)
      && (CommitTransaction in calls <==> workDone)
  {
  }

  /** The outcome `update` promises once `preload` has found row `k` (with
      id `id`) of `before`, leaving `after`, with result `r` and runner calls
      `calls`:
      - a failure changes nothing;
      - a failure to connect or to start is not caught: it reaches the caller
        unclassified and the runner is never released;
      - otherwise the runner calls are connect, start and the transaction's
        tail; a failure in the transaction is classified; success saves the
        merged row and returns `findOnePlain(id)`;
      - on success the product's images are the new URLs, in new rows, or are
        kept when no list was sent, and every other product's images are
        unchanged. */
  ghost predicate UpdatedFoundRow(before: Database, after: Database, id: string, k: nat, patch: UpdateProductDto,
                                  fault: UpdateFault, r: Result<ProductView, Exception>, calls: seq<RunnerCall>)
    requires k < |before.products| && before.products[k].id == id && IsValidPatch(patch)
  {
    && (r.Failure? ==> after == before)
    && (!TransactionOpened(before, id, fault) ==> r == Failure(Unhandled(fault.error)) && Release !in calls)
    && (TransactionOpened(before, id, fault) ==>
          var failure := FailureInTransaction(before, k, patch, fault);
          && calls == [Connect, StartTransaction] + TransactionTail(FailureBeforeCommit(before, k, patch, fault).None?, failure.None?)
          && (failure.Some? ==> r == Failure(HandleDbExceptions(failure.value)))
          && (failure.None? ==>
                var merged := Preload(before.products[k], patch);
                && after.products == before.products[k := merged]
                && r == FindOnePlain(after, id) && r == Success(ProductView(merged, []))))
    && (r.Success? && patch.images.Some? ==>
          && OwnedUrls(after, id) == patch.images.value
          && forall row :: row in OwnedBy(after.images, id) ==> row.id >= before.nextImageId)
    && (r.Success? && patch.images.None? ==> after.images == before.images)
    && (r.Success? ==> forall o :: o != id ==> OwnedBy(after.images, o) == OwnedBy(before.images, o))
  }

  // ---------------------------------------------------------------- the service

  class ProductsService {
    /** The database behind the two repositories. */
    var db: Database

    ghost predicate Valid() reads this {
      Store.Valid(db)
    }

    constructor()
      ensures Valid() && db == Database([], [], 0)
    {
      db := Database([], [], 0);
    }

    /** `create`: saves the product built from the body, with one image row
        per URL in order, and returns its columns with the URL list itself.
        `newId` is the UUID the database generates for the row; `fault` is a
        backend failure met by the save, if any. Every failure is classified. */
    method Create(dto: CreateProductDto, newId: string, fault: Option<DbError>)
      returns (r: Result<ProductView, Exception>)
      requires Valid() && IsValid(dto) && IsStoredUuid(newId)
      modifies this
      ensures Valid()
      ensures r.Failure? ==> db == old(db) && (r.error.BadRequest? || r.error.InternalServerError?)
      ensures r.Success? <==>
        fault.None? && dto.slug.Some? && dto.sizes.Some? &&
        Conflict(old(db).products, ToRow(newId, ProductDetails(dto)).value, true).None?
      ensures fault.Some? ==> r == Failure(HandleDbExceptions(fault.value))
      ensures fault.None? && (dto.slug.None? || dto.sizes.None?) ==> r == Failure(InternalServerError(UnexpectedErrorMessage))
      ensures fault.None? && dto.slug.Some? && dto.sizes.Some? ==>
        var conflict := Conflict(old(db).products, ToRow(newId, ProductDetails(dto)).value, true);
        conflict.Some? ==> r == Failure(BadRequest(conflict.value.detail))
      ensures r.Success? ==> r.value.images == dto.images.GetOr([])
      ensures r.Success? ==>
        var p := r.value.product;
        && p == ToRow(newId, ProductDetails(dto)).value
        && p.id == newId && p.title == dto.title && Some(p.slug) == dto.slug
        && p.price == dto.price.GetOr(DefaultPrice) && p.description == dto.description
        && Some(p.sizes) == dto.sizes && p.gender == dto.gender
        && (dto.stock.None? ==> p.stock == DefaultStock)
        && (dto.stock.Some? ==> p.stock as real == dto.stock.value)
      ensures r.Success? ==>
        && db.products == old(db).products + [r.value.product]
        && db.images == old(db).images + NewImages(newId, r.value.images, old(db).nextImageId)
        && db.nextImageId == old(db).nextImageId + |r.value.images|
        && OwnedUrls(db, newId) == r.value.images
        && FindOnePlain(db, newId) == Success(ProductView(r.value.product, []))
    {
      var urls := dto.images.GetOr([]);
      var draft := ProductDetails(dto);
      if fault.Some? {
        r := Failure(HandleDbExceptions(fault.value));
        return;
      }
      match ToRow(newId, draft) {
        case Failure(e) =>
          r := Failure(HandleDbExceptions(e));
        case Success(p) =>
          var conflict := Conflict(db.products, p, true);
          if conflict.Some? {
            r := Failure(HandleDbExceptions(conflict.value));
          } else {
            db := InsertProduct(db, p, urls);
            StoredProductFoundById(db, |db.products| - 1);
            r := Success(ProductView(p, urls));
          }
      }
    }

    /** `update`: merges the patch onto the stored row whose id is `id`,
        then inside one transaction replaces the product's images by the
        given URLs (or keeps them) and saves; see `UpdatedFoundRow` for the
        outcome once the row is found. */
    method Update(id: string, patch: UpdateProductDto, fault: UpdateFault)
      returns (r: Result<ProductView, Exception>, calls: seq<RunnerCall>)
      requires Valid() && IsValidPatch(patch)
      modifies this
      ensures Valid()
      ensures id !in Ids(old(db).products) ==>
        r == Failure(NotFound(PreloadNotFound(id))) && calls == [] && db == old(db)
      ensures id in Ids(old(db).products) ==>
        UpdatedFoundRow(old(db), db, id, IndexOfId(old(db).products, id).value, patch, fault, r, calls)
    {
      var found := IndexOfId(db.products, id);
      if found.None? {
        r, calls := Failure(NotFound(PreloadNotFound(id))), [];
        return;
      }
      r, calls := OpenTransaction(id, found.value, patch, fault);
    }

    /** `update` once the preload found row `k`: connect, start the
        transaction and run it. */
    method OpenTransaction(id: string, k: nat, patch: UpdateProductDto, fault: UpdateFault)
      returns (r: Result<ProductView, Exception>, calls: seq<RunnerCall>)
      requires Valid() && IsValidPatch(patch) && k < |db.products| && db.products[k].id == id
      modifies this
      ensures Valid()
      ensures UpdatedFoundRow(old(db), db, id, k, patch, fault, r, calls)
    {
      var product := Preload(db.products[k], patch);
      calls := [Connect];
      if FailureAt(fault, AtConnect).Some? {
        r := Failure(Unhandled(fault.error));
        return;
      }
      calls := calls + [StartTransaction];
      if FailureAt(fault, AtStartTransaction).Some? {
        r := Failure(Unhandled(fault.error));
        return;
      }
      var tail;
      r, tail := RunTransaction(k, product, patch, fault);
      calls := calls + tail;
    }

    /** From an open transaction to the released runner: the work, then
        commit and release, or rollback to the snapshot taken when the
        transaction started, release and classification. `tail` lists the
        runner calls made. */
    method RunTransaction(k: nat, product: Product, patch: UpdateProductDto, fault: UpdateFault)
      returns (r: Result<ProductView, Exception>, tail: seq<RunnerCall>)
      requires Valid() && IsValidPatch(patch) && k < |db.products|
      requires product == Preload(db.products[k], patch)
      modifies this
      ensures Valid()
      ensures var failure := FailureInTransaction(old(db), k, patch, fault);
        && (failure.None? ==> r == FindOnePlain(db, product.id) && r.Success? && r.value == ProductView(product, []))
        && tail == TransactionTail(FailureBeforeCommit(old(db), k, patch, fault).None?, failure.None?)
        && (failure.Some? ==> r == Failure(HandleDbExceptions(failure.value)) && db == old(db))
      ensures r.Success? ==> db.products == old(db).products[k := product]
      ensures r.Success? && patch.images.Some? ==>
        && OwnedUrls(db, product.id) == patch.images.value
        && forall row :: row in OwnedBy(db.images, product.id) ==> row.id >= old(db).nextImageId
      ensures r.Success? && patch.images.None? ==> db.images == old(db).images
      ensures r.Success? ==> forall o :: o != product.id ==> OwnedBy(db.images, o) == OwnedBy(old(db).images, o)
    {
      var snapshot := db;
      var failure := SaveInTransaction(k, product, patch, fault);
      tail := [];
      if failure.None? {
        tail := [CommitTransaction];
        failure := FailureAt(fault, AtCommit);
        if failure.None? {
          tail := tail + [Release];
          StoredProductFoundById(db, k);
          if patch.images.Some? {
            UrlsOfNewImages(product.id, patch.images.value, snapshot.nextImageId);
          }
          r := FindOnePlain(db, product.id);
          return;
        }
      }
      db := snapshot;
      tail := tail + [RollbackTransaction, Release];
      r := Failure(HandleDbExceptions(failure.value));
    }

    /** The work `update` runs inside its transaction: with an image list,
        delete the product's image rows and attach one new row per URL;
        without one, re-attach the rows it has; then save the merged row.
        On failure the store may hold part of the work, which the caller
        rolls back. */
    method SaveInTransaction(k: nat, product: Product, patch: UpdateProductDto, fault: UpdateFault)
      returns (failure: Option<DbError>)
      requires Valid() && IsValidPatch(patch) && k < |db.products|
      requires product == Preload(db.products[k], patch)
      modifies this
      ensures Valid()
      ensures failure == FailureBeforeCommit(old(db), k, patch, fault)
      ensures failure.None? ==> db.products == old(db).products[k := product]
      ensures failure.None? && patch.images.Some? ==>
        db.images == NotOwnedBy(old(db).images, product.id) + NewImages(product.id, patch.images.value, old(db).nextImageId)
      ensures failure.None? && patch.images.None? ==> db.images == old(db).images
      ensures failure.None? && patch.images.Some? ==>
        OwnedBy(db.images, product.id) == NewImages(product.id, patch.images.value, old(db).nextImageId)
      ensures failure.None? ==> forall o :: o != product.id ==> OwnedBy(db.images, o) == OwnedBy(old(db).images, o)
    {
      var id := product.id;
      assert id in Ids(db.products);
      if patch.images.Some? {
        failure := FailureAt(fault, AtDeleteImages);
        if failure.None? {
          db := DeleteImagesOf(db, id);
        }
      } else {
        // the rows loaded for `id` are re-attached as they are
        failure := FailureAt(fault, AtFindImages);
      }
      if failure.None? {
        failure := FailureAt(fault, AtSave);
        if failure.None? {
          failure := Conflict(db.products, product, false);
          if failure.None? {
            db := UpdateProduct(db, k, product);
            if patch.images.Some? {
              db := AttachImages(db, id, patch.images.value);
            }
          }
        }
      }
    }

    /** `remove`: the same lookup as `findOne` (so any term is accepted), then
        the row is deleted and the cascade deletes its images. `fault` is a
        backend failure met by the delete; it reaches the caller unclassified. */
    method Remove(term: string, fault: Option<DbError>) returns (r: Result<(), Exception>)
      requires Valid()
      modifies this
      ensures Valid()
      ensures r.Failure? ==> db == old(db)
      ensures FindOne(old(db), term).Failure? ==> r == Failure(NotFound(ProductNotFound(term)))
      ensures FindOne(old(db), term).Success? && fault.Some? ==> r == Failure(Unhandled(fault.value))
      ensures r.Success? <==> FindOne(old(db), term).Success? && fault.None?
      ensures r.Success? ==>
        var p := FindOne(old(db), term).value.product;
        && p.id !in Ids(db.products)
        && (var k := IndexOfId(old(db).products, p.id).value;
            db.products == old(db).products[..k] + old(db).products[k + 1..])
        && OwnedBy(db.images, p.id) == []
        && |db.products| == |old(db).products| - 1
        && (forall q :: q in old(db).products && q.id != p.id ==> q in db.products)
        && (forall o :: o != p.id ==> OwnedBy(db.images, o) == OwnedBy(old(db).images, o))
    {
      match FindOne(db, term) {
        case Failure(e) =>
          r := Failure(e);
        case Success(loaded) =>
          if fault.Some? {
            r := Failure(Unhandled(fault.value));
            return;
          }
          var k := IndexOfId(db.products, loaded.product.id).value;
          db := RemoveProduct(db, k);
          r := Success(());
      }
    }

    /** `deleteAllProducts`: deletes every product (and, by the cascade, every
        image) and reports how many rows were deleted; a backend failure is classified. */
    method DeleteAllProducts(fault: Option<DbError>) returns (r: Result<nat, Exception>)
      requires Valid()
      modifies this
      ensures Valid()
      ensures fault.None? ==>
        r == Success(|old(db).products|) && db == Database([], [], old(db).nextImageId)
      ensures fault.Some? ==> r == Failure(HandleDbExceptions(fault.value)) && db == old(db)
    {
      if fault.Some? {
        r := Failure(HandleDbExceptions(fault.value));
      } else {
        var count := |db.products|;
        db := RemoveAll(db);
        r := Success(count);
      }
    }
  }
}
