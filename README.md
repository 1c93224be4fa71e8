# Product catalogue of q-shop-server, in Dafny

This project models the core of the product catalogue in the q-shop-server
back end. That core is `ProductsService`, the `CreateProductDto` request
body and the `Product` entity. The model covers these parts:

- **`Product` entity** (`product_entity.dfy`). It models the row, the
  column defaults for `price` and `stock`, and the NOT NULL columns
  `slug`, `sizes` and `gender`. It also models the unique columns `id`,
  `title` and `slug`. A violated constraint yields a PostgreSQL error
  carrying SQLSTATE `23505` (unique) or `23502` (not null), plus a
  detail text.
- **The store** (`store.dfy`). The store is one value:
  - the product table, in storage order;
  - the image table, in storage order;
  - the image id generator.

  Its invariant `Store.Valid` requires three things: unique columns, UUID
  ids, and image rows that each belong to a stored product and are
  numbered in increasing order. Every table operation the service uses is
  a function that keeps `Store.Valid`:
  - insert with images;
  - save a row;
  - delete a product's images;
  - attach new images;
  - remove with the cascade to images;
  - delete everything.

  Each of these functions states what becomes of each product's images.
- **`CreateProductDto`** (`product_dto.dfy`). It holds the validation
  rules that a body meets before the service sees it. It also holds the
  update body, whose fields are each optional.
- **`ProductsService`** (`products_service.dfy`). The reads (`findAll`,
  `findOne`, `findOnePlain`) and the error classifier
  `handleDBExceptions` are pure functions over the store. The service
  itself is a class whose `db` field the mutating operations reassign:
  `create`, `update`, `remove` and `deleteAllProducts`.
  - A backend failure is a parameter naming the step where the failure
    happens.
  - `update` also returns the sequence of query-runner calls it made:
    connect, start, commit, rollback and release.
  - The transaction is a snapshot of the store taken when it starts. A
    rollback restores that snapshot.
- **Helpers** (`text.dfy`, `wrappers.dfy`). They provide ASCII
  upper/lower-casing, the UUID shape test (8-4-4-4-12 hexadecimal digits,
  as in section 3 of RFC 4122), and the `Option` and `Result` types.

Consequences of the code as written:

- The entity has no `tags` column, so `tags` in a create body is dropped
  when the row is built.
- The `title` and `slug` constraints compare exact strings. Two titles
  that differ only in case may both be stored.
- `remove` looks up its argument the way `findOne` does, so a title or a
  slug removes a product as well as an id.
- In `findOne`, a UUID-shaped term is compared with the `uuid` column in
  SQL, so its hexadecimal digits may be of either case. Stored ids are lower-case,
  which is how PostgreSQL returns `uuid` values.
- `findOne` with a UUID loads no image relation, so `findOnePlain` and
  `update` report `images: []` for it.
- `connect` and `startTransaction` run outside `update`'s `try`. A
  failure there reaches the caller unclassified, and the runner is never
  released.

## Model

| member | source | states |
|---|---|---|
| Text.Upper | src/products/products.service.ts:90-91 | same length; each character upper-cased; no lower-case letter left |
| Text.Lower | src/products/products.service.ts:90-92 | same length; each character lower-cased; no upper-case letter left |
| Text.LowerFixedIffNoUpper | src/products/products.service.ts:92 | lower-casing leaves a string unchanged exactly when it holds no upper-case letter |
| Text.LowerIdempotent | src/products/products.service.ts:92 | lower-casing twice is lower-casing once |
| Text.IsUuid | src/products/products.service.ts:81 | the 36-character 8-4-4-4-12 layout: hyphens at positions 8, 13, 18 and 23, hexadecimal digits of either case elsewhere |
| Text.IsStoredUuid | src/products/entities/product.entity.ts:6-7 | a UUID in the lower-case form PostgreSQL returns for a `uuid` column |
| Text.UuidShapeIgnoresCase | src/products/products.service.ts:81-83 | a string has the UUID shape exactly when its lower-cased form has it, and lower-casing a UUID gives its stored form |
| ProductEntity.ToRow | src/products/entities/product.entity.ts:14-42 | the row is built exactly when `slug` and `sizes` are present; otherwise a not-null violation (23502); missing price and stock take the column default 0; every other field is copied |
| ProductEntity.Conflict | src/products/entities/product.entity.ts:6-28 | no error exactly when the id (on insert), the title and the slug collide with no other row; any error is a unique violation (23505) whose detail names the first colliding column, in the order id, title, slug, and its value |
| ProductEntity.AppendKeepsUnique | src/products/entities/product.entity.ts:9-28 | inserting a row that passed the unique check keeps ids, titles and slugs unique |
| ProductEntity.ReplaceKeepsUnique | src/products/entities/product.entity.ts:9-28 | saving a row over its own position after the unique check keeps the columns unique |
| ProductEntity.RemoveKeepsUnique | src/products/entities/product.entity.ts:9-28 | deleting a row keeps the columns unique |
| ProductEntity.DuplicateTitleRefused | src/products/entities/product.entity.ts:9-12 | a row whose title another row holds is refused with a unique violation |
| ProductEntity.DuplicateSlugRefused | src/products/entities/product.entity.ts:25-28 | a row whose slug another row holds is refused with a unique violation |
| Store.IndexOfId | src/products/products.service.ts:83 | the first row with that id, and none exactly when no row has it |
| Store.IndexOfStoredId | src/products/entities/product.entity.ts:6-7 | with unique ids, the lookup of a stored row's id finds that row |
| Store.UuidIds | src/products/entities/product.entity.ts:6-7 | every product id is a generated UUID in stored form, so no two ids differ only in case |
| Store.Valid | src/products/entities/product.entity.ts:6-28 | the store invariant: unique id, title and slug; stored-form UUID ids; every image row owned by a stored product, with ids increasing in storage order and below the generator |
| Store.NewImages | src/products/products.service.ts:40 | one image row per URL, in order, owned by the product, numbered from the generator |
| Store.OwnedBy | src/products/products.service.ts:146 | exactly the product's image rows, in storage order |
| Store.NotOwnedBy | src/products/products.service.ts:139 | exactly the rows of other products, in order; increasing ids stay increasing |
| Store.Urls | src/products/products.service.ts:72 | the URLs of the rows, position by position |
| Store.OwnedByAppend | src/products/products.service.ts:40-44 | a product's images in a concatenation are its images in each part, in order |
| Store.OwnedByNewImages | src/products/products.service.ts:40 | new rows for one product hold no image of any other product |
| Store.OwnedByNotOwnedBy | src/products/products.service.ts:139 | deleting one product's images leaves every other product's images as they were |
| Store.UrlsOfNewImages | src/products/products.service.ts:40 | the URLs of newly built rows are the URLs they were built from |
| Store.InsertProduct | src/products/products.service.ts:38-44 | keeps the invariant; appends the row and its image rows; the new product's image URLs are the given list; other products' images unchanged |
| Store.AppendOwnership | src/products/products.service.ts:40-44 | appending rows for a product that had none gives it exactly those rows |
| Store.UpdateProduct | src/products/products.service.ts:149 | keeps the invariant and the set of ids; replaces the row in place; images untouched |
| Store.DeleteImagesOf | src/products/products.service.ts:139 | keeps the invariant; the product has no images left; other products' images unchanged |
| Store.AttachImages | src/products/products.service.ts:141-149 | the product's images gain one row per URL, in order; other products' images unchanged; the generator advances by the count |
| Store.RemoveProduct | src/products/products.service.ts:172 | keeps the invariant; the row is gone and every other row kept; the product's images are deleted by the cascade; other products' images unchanged |
| Store.RemoveAll | src/products/products.service.ts:182-185 | no product and no image row is left |
| ProductDto.StockCount | src/products/dto/create-product.dto.ts:31-34 | a valid stock is a positive whole number equal to the sent value |
| ProductDto.IsValid | src/products/dto/create-product.dto.ts:14-47 | a create body passes validation exactly when the title has at least six characters, a present price is positive, a present stock is a positive whole number and the gender is one of men, women, kid, unisex |
| ProductDto.IsValidPatch | src/products/dto/create-product.dto.ts:14-47 | an update body passes validation exactly when each present field meets the create rule for that field |
| ProductDto.DefaultsAreRefused | src/products/dto/create-product.dto.ts:18-34 | the column defaults (price 0, stock 0) are not values a body may carry |
| Products.HandleDbExceptions | src/products/products.service.ts:193-201 | always an exception; a bad request exactly for 23505, carrying the backend's detail; otherwise an internal error with the fixed message |
| Products.InternalErrorsHideDetail | src/products/products.service.ts:198-199 | any two non-unique failures give the caller the same exception |
| Products.Page | src/products/products.service.ts:58-64 | skips `offset` rows, keeps at most `limit` (all when 0), position by position |
| Products.FindAll | src/products/products.service.ts:54-75 | exactly min(limit, rows after offset) products (all rows after offset when the limit is 0 or absent), starting at `offset`, each with its image URLs in order |
| Products.FindAllAfterRemoveAll | src/products/products.service.ts:176-186 | after the bulk delete every page is empty |
| Products.IndexOfNaturalKey | src/products/products.service.ts:87-95 | the first row whose upper-cased title equals the upper-cased term or whose slug equals the lower-cased term; none exactly when no row matches |
| Products.NaturalKeyMatch | src/products/products.service.ts:90-92 | the query condition: upper-cased title equals the upper-cased term, or the slug equals the lower-cased term |
| Products.FindOne | src/products/products.service.ts:77-104 | a UUID term finds exactly the stored row whose id is the term lower-cased, loaded without images; another term finds a natural-key match with its images; otherwise NotFound echoing the term |
| Products.FindOnePlain | src/products/products.service.ts:106-115 | succeeds exactly when `findOne` does, with the same product; images are the URLs of the loaded rows, `[]` when none were loaded |
| Products.StoredProductFoundById | src/products/products.service.ts:81-83 | every stored product is found by its own id |
| Products.UuidTermFoundInAnyCase | src/products/products.service.ts:81-83 | a UUID term whose lower-cased form is a stored id finds that product, whatever the case of its digits |
| Products.UpperCaseSlugNeverMatched | src/products/products.service.ts:90-92 | a stored slug holding an upper-case letter is never matched by slug, whatever the term |
| Products.TitleShadowsSlug | src/products/products.service.ts:89-95 | with unique columns, looking up one product's slug can return another, earlier product whose title equals that slug |
| Products.ProductDetails | src/products/products.service.ts:35-41 | the body minus `images` and `tags`: title, price, description, slug, sizes and gender copied, and the validation rules carried over |
| Products.Preload | src/products/products.service.ts:122-125 | the stored row with each field in the patch overwritten and every other field, and the id, kept |
| Products.PreloadIdempotent | src/products/products.service.ts:125 | applying a patch twice is applying it once |
| Products.EmptyPatchKeepsRow | src/products/products.service.ts:125 | an empty patch leaves the row as stored |
| Products.ReleasedExactlyOnce | src/products/products.service.ts:130-165 | once the transaction is open, the runner is released exactly once, as the last call; rollback happens exactly when nothing was committed |
| Products.FailureBeforeCommit | src/products/products.service.ts:137-149 | the first failure in the transaction's work, in order: image delete or image read, then the save, then a unique conflict of the merged row |
| Products.FailureInTransaction | src/products/products.service.ts:137-153 | the failure that makes `update` roll back: one in the work, else one in the commit |
| Products.TransactionTail | src/products/products.service.ts:153-161 | runner calls after the start: commit and release on success; otherwise the commit if it was reached, then rollback and release |
| Products.ProductsService.constructor | src/products/products.service.ts:19-29 | an empty store satisfying the invariant |
| Products.ProductsService.Create | src/products/products.service.ts:31-52 | keeps the invariant; succeeds exactly without a fault, with slug and sizes present and no unique conflict; a unique conflict is a BadRequest carrying the backend's detail, a missing slug or sizes an internal error; failures change nothing; on success the row holds the body's fields with defaults, its images are the given URLs, and it is found by its id |
| Products.ProductsService.Update | src/products/products.service.ts:117-167 | keeps the invariant; an id that is no stored id is NotFound, with no runner call and nothing changed; a stored id gives the outcome `UpdatedFoundRow` describes for its row |
| Products.UpdatedFoundRow | src/products/products.service.ts:130-165 | the outcome of `update` on a found row: a failure changes nothing; a connect/start failure is unclassified and the runner is never released; otherwise the runner calls are exactly connect, start, then commit and release or rollback and release; a transaction failure is classified; success saves the merged row, replaces or keeps the product's images, leaves other products' images alone and returns `findOnePlain(id)` |
| Products.ProductsService.OpenTransaction | src/products/products.service.ts:130-165 | keeps the invariant; connect, start and the transaction on the found row have the outcome `UpdatedFoundRow` describes |
| Products.ProductsService.RunTransaction | src/products/products.service.ts:135-165 | commit and release on success, returning the saved row; on any failure the store is the snapshot, the runner is rolled back and released, and the error is classified |
| Products.ProductsService.SaveInTransaction | src/products/products.service.ts:137-149 | the failure met is the first of: image delete/read, save, unique conflict; on success the row is replaced and the product's images are exactly the new rows (or unchanged without an image list) |
| Products.ProductsService.Remove | src/products/products.service.ts:169-174 | succeeds exactly when `findOne` finds the term and the delete does not fail; the product table is the old one without the found row, in order; the row's images are gone and other images kept; failures change nothing |
| Products.ProductsService.DeleteAllProducts | src/products/products.service.ts:176-191 | without a fault, both tables are empty and the number of deleted products is returned; a fault is classified and changes nothing |

## Left out

- Asynchrony and concurrency: each operation runs alone and to completion.
  Nothing models interleaved requests, or the gap between `update`'s
  commit and its closing `findOnePlain`.
- The logger call in `handleDBExceptions` has no effect on any result.
- The backend is represented by parameters rather than modelled. The UUID
  the database generates for a new row is a parameter. So is a backend
  failure in a write: it is injected at a named step (create's save,
  update's connect, start, image delete, image read, save and commit,
  remove's delete, the bulk delete).
- `Products.FindAll`, `Products.FindOne`, `Products.FindOnePlain`: these
  reads cannot fail in the model. The same goes for the `preload` in
  `Products.ProductsService.Update` and the lookup in
  `Products.ProductsService.Remove`. In the source none of these reads is
  inside a `try`, so a backend failure there reaches the caller raw and
  never passes through `handleDBExceptions`.
- `Store.RemoveProduct`, `Store.InsertProduct`, `Store.UpdateProduct`: the
  ORM is not modelled. Its behaviour is assumed:
  - `preload` returns undefined for an unknown id;
  - saving applies the column defaults and inserts the cascaded image
    rows;
  - deleting a product deletes its images by cascade;
  - rows come back in storage order;
  - `take: 0` means no limit.
- The unique check always reports the first violated constraint in the
  order id, title, slug. Which constraint PostgreSQL reports when several
  fail at once is not modelled.
- Errors the backend would raise for ill-formed input are not modelled.
  One example is a slug or id of the wrong type.
- `Products.ProductsService.Update`: the id must equal a stored id as a
  string. This is an assumption about TypeORM's `preload`, whose code is
  not part of this model: it loads candidate rows in SQL, then pairs each
  loaded row with the given object by comparing the ids as JavaScript
  strings. So an upper-case spelling of a stored id is NotFound, as is any
  other spelling. An id that is no UUID at all is also NotFound here,
  where PostgreSQL raises an invalid-input error.
- `ProductEntity.ToRow`: `stock` is an unbounded integer. The column is a
  PostgreSQL `int` (32-bit), and the body accepts any positive integer. So
  a stock above 2147483647 fails in the source with an out-of-range error
  (22003): an internal error from `create`, and a rollback then an
  internal error from `update`. The model stores the value and succeeds.
- `ProductDto.IsValid`: a JSON `null` is treated like an absent field.
  `@IsOptional` skips every rule for `null`, and the repository then
  writes NULL. So a create body with `"price": null` or `"stock": null`
  fails in the source with a not-null violation (23502), which becomes an
  internal error. The model applies the column default and succeeds.
- `ProductDto.IsValid`: `@MinLength(6)` counts UTF-16 code units, while
  the model counts characters. A title of astral-plane characters can
  therefore pass in the source and fail here.
- `Products.Preload`: a patch field set to `null` is treated as absent.
  In the source, `{"title": null}` makes the save fail on the not-null
  title and roll back, and `{"description": null}` clears the
  description. The model keeps the stored value in both cases.
- Failures of `rollbackTransaction` and `release` themselves are not
  modelled.
- `Text.Upper`, `Text.Lower`: ASCII letters only. JavaScript's and
  PostgreSQL's Unicode case mapping is not modelled.
- `Text.IsUuid`: checks the 8-4-4-4-12 hexadecimal shape only. The
  version and variant digits that the `uuid` package's `validate` also
  checks are not modelled.
- `price` is a `real`. Floating-point and `numeric` rounding are not
  modelled, and nothing computes with prices.
- The `ProductImage` entity, `update-product.dto.ts` and
  `pagination.dto.ts` are not part of this model:
  - an image row is taken to be an id from a counter, an owner and a URL;
  - the update body is taken to be the create body with every field
    optional;
  - pagination is taken to be two optional natural numbers.
- The image relation is not declared in the entity shown. The model
  assumes these relation semantics:
  - a one-to-many relation;
  - cascade insert;
  - delete on cascade;
  - not eager, so a lookup by id loads no images.
- `src/files/files.controller.ts` and `src/auth/auth.service.ts` lie
  outside the product catalogue and are not part of this model.
- Validation rules that concern only JavaScript types (`IsString`,
  `IsArray`, `IsNumber`) are carried by the Dafny types. The
  `CreateProductDto` validation itself happens before the service and is
  a precondition of `create`.
