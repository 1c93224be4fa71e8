/** The `Product` table: its columns, the defaults the database fills in, the
    NOT NULL columns it enforces and its unique columns. */
module ProductEntity {
  import opened Wrappers

  /** One stored row. `id` is the store-generated UUID primary key (held as a
      string); `description` is the only nullable column. */
  datatype Product = Product(
    id: string,
    title: string,
    price: real,
    description: Option<string>,
    slug: string,
    stock: int,
    sizes: seq<string>,
    gender: string)

  const DefaultPrice: real := 0.0
  const DefaultStock: int := 0

  /** A backend failure: the SQLSTATE code and the detail text PostgreSQL reports. */
  datatype DbError = DbError(code: string, detail: string)

  const UniqueViolation: string := "23505"
  const NotNullViolation: string := "23502"

  /** The in-memory entity built by the repository before it is saved: the
      columns the caller may leave out are optional. */
  datatype ProductDraft = ProductDraft(
    title: string,
    price: Option<real>,
    description: Option<string>,
    slug: Option<string>,
    stock: Option<int>,
    sizes: Option<seq<string>>,
    gender: string)

  function NotNullDetail(column: string): string {
    "null value in column \"" + column + "\" violates not-null constraint"
  }

  function UniqueDetail(column: string, value: string): string {
    "Key (" + column + ")=(" + value + ") already exists."
  }

  /** The row the database stores for a draft under a generated id: `price`
      and `stock` take their defaults, and a draft without `slug` or `sizes`
      (NOT NULL columns without a default) is refused. */
  function ToRow(id: string, d: ProductDraft): (r: Result<Product, DbError>)
    ensures r.Success? <==> d.slug.Some? && d.sizes.Some?
    ensures r.Failure? ==> r.error.code == NotNullViolation
    ensures r.Success? ==>
      && r.value.id == id && r.value.title == d.title && r.value.gender == d.gender
      && r.value.description == d.description
      && Some(r.value.slug) == d.slug && Some(r.value.sizes) == d.sizes
    ensures r.Success? ==> r.value.price == d.price.GetOr(DefaultPrice) && r.value.stock == d.stock.GetOr(DefaultStock)
  {
    if d.slug.None? then Failure(DbError(NotNullViolation, NotNullDetail("slug")))
    else if d.sizes.None? then Failure(DbError(NotNullViolation, NotNullDetail("sizes")))
    else Success(Product(id, d.title, d.price.GetOr(DefaultPrice), d.description,
                         d.slug.value, d.stock.GetOr(DefaultStock), d.sizes.value, d.gender))
  }

  /** Primary key, `title` and `slug` are each unique over the table (exact string equality). */
  predicate UniqueColumns(rows: seq<Product>) {
    forall i, j :: 0 <= i < j < |rows| ==>
      rows[i].id != rows[j].id && rows[i].title != rows[j].title && rows[i].slug != rows[j].slug
  }

  predicate IdTaken(rows: seq<Product>, id: string) {
    exists q :: q in rows && q.id == id
  }

  predicate TitleTaken(rows: seq<Product>, p: Product) {
    exists q :: q in rows && q.id != p.id && q.title == p.title
  }

  predicate SlugTaken(rows: seq<Product>, p: Product) {
    exists q :: q in rows && q.id != p.id && q.slug == p.slug
  }

  /** The unique-index violation, if any, that writing `p` into `rows` raises:
      an insert also checks the primary key; the indexes are checked in the
      order primary key, title, slug. An update of the row whose id is `p.id`
      is compared only with the other rows. */
  function Conflict(rows: seq<Product>, p: Product, inserting: bool): (r: Option<DbError>)
    ensures r.None? <==> (inserting ==> !IdTaken(rows, p.id)) && !TitleTaken(rows, p) && !SlugTaken(rows, p)
    ensures r.Some? ==> r.value.code == UniqueViolation
    ensures r.Some? && inserting && IdTaken(rows, p.id) ==> r.value.detail == UniqueDetail("id", p.id)
    ensures r.Some? && !(inserting && IdTaken(rows, p.id)) && TitleTaken(rows, p) ==>
      r.value.detail == UniqueDetail("title", p.title)
    ensures r.Some? && !(inserting && IdTaken(rows, p.id)) && !TitleTaken(rows, p) ==>
      r.value.detail == UniqueDetail("slug", p.slug)
  {
    if inserting && IdTaken(rows, p.id) then Some(DbError(UniqueViolation, UniqueDetail("id", p.id)))
    else if TitleTaken(rows, p) then Some(DbError(UniqueViolation, UniqueDetail("title", p.title)))
    else if SlugTaken(rows, p) then Some(DbError(UniqueViolation, UniqueDetail("slug", p.slug)))
    else None
  }

  /** Inserting a row that raises no violation keeps the columns unique. */
  lemma AppendKeepsUnique(rows: seq<Product>, p: Product)
    requires UniqueColumns(rows) && Conflict(rows, p, true).None?
    ensures UniqueColumns(rows + [p])
  {
    var r := rows + [p];
    forall i, j | 0 <= i < j < |r|
      ensures r[i].id != r[j].id && r[i].title != r[j].title && r[i].slug != r[j].slug
    {
      if j == |rows| {
        assert r[i] in rows;
      }
    }
  }

  /** Overwriting row `k` by a row with the same id that raises no violation keeps the columns unique. */
  lemma ReplaceKeepsUnique(rows: seq<Product>, k: nat, p: Product)
    requires UniqueColumns(rows) && k < |rows| && rows[k].id == p.id && Conflict(rows, p, false).None?
    ensures UniqueColumns(rows[k := p])
  {
    var r := rows[k := p];
    forall i, j | 0 <= i < j < |r|
      ensures r[i].id != r[j].id && r[i].title != r[j].title && r[i].slug != r[j].slug
    {
      if i == k {
        assert rows[j] in rows;
      } else if j == k {
        assert rows[i] in rows;
      }
    }
  }

  /** Dropping row `k` keeps the columns unique. */
  lemma RemoveKeepsUnique(rows: seq<Product>, k: nat)
    requires UniqueColumns(rows) && k < |rows|
    ensures UniqueColumns(rows[..k] + rows[k + 1..])
  {
    var r := rows[..k] + rows[k + 1..];
    forall i, j | 0 <= i < j < |r|
      ensures r[i].id != r[j].id && r[i].title != r[j].title && r[i].slug != r[j].slug
    {
      var i', j' := if i < k then i else i + 1, if j < k then j else j + 1;
      assert r[i] == rows[i'] && r[j] == rows[j'];
    }
  }

  /** A second product with a title already stored (under another id) is
      refused with the duplicate title in the detail. */
  lemma DuplicateTitleRefused(rows: seq<Product>, q: Product, p: Product)
    requires q in rows && q.id != p.id && q.title == p.title && !IdTaken(rows, p.id)
    ensures Conflict(rows, p, true) == Some(DbError(UniqueViolation, UniqueDetail("title", p.title)))
  {
  }

  /** A second product with a slug already stored (under another id and title)
      is refused with the duplicate slug in the detail. */
  lemma DuplicateSlugRefused(rows: seq<Product>, q: Product, p: Product)
    requires q in rows && q.id != p.id && q.slug == p.slug
    requires !IdTaken(rows, p.id) && !TitleTaken(rows, p)
    ensures Conflict(rows, p, true) == Some(DbError(UniqueViolation, UniqueDetail("slug", p.slug)))
  {
  }
}
