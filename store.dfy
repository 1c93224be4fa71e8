/** The abstract store behind the two repositories: the product table, the
    image table (rows carry their owner's id) and the image id generator,
    with the invariant every write keeps and the writes themselves. */
module Store {
  import opened Wrappers
  import opened Text
  import opened ProductEntity

  /** One row of the image table; `ownerId` is the foreign key to a product. */
  datatype ImageRow = ImageRow(id: nat, ownerId: string, url: string)

  /** Both tables in storage order, and the next image id the generator hands out. */
  datatype Database = Database(products: seq<Product>, images: seq<ImageRow>, nextImageId: nat)

  function Ids(rows: seq<Product>): set<string> {
    set p | p in rows :: p.id
  }

  /** Product ids are generated UUIDs, held in the lower-case form PostgreSQL returns. */
  predicate UuidIds(rows: seq<Product>) {
    forall i :: 0 <= i < |rows| ==> IsStoredUuid(rows[i].id)
  }

  /** Image ids below the generator and increasing in storage order, every
      owner among `owners`. */
  predicate ImagesValid(images: seq<ImageRow>, nextImageId: nat, owners: set<string>) {
    && (forall k :: 0 <= k < |images| ==> images[k].id < nextImageId && images[k].ownerId in owners)
    && (forall k, l :: 0 <= k < l < |images| ==> images[k].id < images[l].id)
  }

  /** The store invariant: unique product columns, lower-case UUID product ids,
      image ids increasing in storage order and below the generator, and every
      image row owned by a stored product. */
  predicate Valid(db: Database) {
    && UniqueColumns(db.products)
    && UuidIds(db.products)
    && ImagesValid(db.images, db.nextImageId, Ids(db.products))
  }

  lemma ImagesValidWiden(images: seq<ImageRow>, nextImageId: nat, owners: set<string>, owners': set<string>)
    requires ImagesValid(images, nextImageId, owners) && owners <= owners'
    ensures ImagesValid(images, nextImageId, owners')
  {
  }

  /** Appending freshly numbered rows for a known owner keeps the image table valid. */
  lemma AppendImagesValid(images: seq<ImageRow>, nextImageId: nat, owners: set<string>, owner: string, urls: seq<string>)
    requires ImagesValid(images, nextImageId, owners) && owner in owners
    ensures ImagesValid(images + NewImages(owner, urls, nextImageId), nextImageId + |urls|, owners)
  {
    var added := NewImages(owner, urls, nextImageId);
    var r := images + added;
    forall k, l | 0 <= k < l < |r| ensures r[k].id < r[l].id {
      if l >= |images| && k < |images| {
        assert r[l] == added[l - |images|];
      }
    }
  }

  /** The position of the first row with the given id. */
  function IndexOfId(rows: seq<Product>, id: string): (r: Option<nat>)
    ensures r.None? <==> id !in Ids(rows)
    ensures r.Some? ==> r.value < |rows| && rows[r.value].id == id
    ensures r.Some? ==> forall j :: 0 <= j < r.value ==> rows[j].id != id
  {
    if rows == [] then None
    else if rows[0].id == id then Some(0)
    else
      var rest := IndexOfId(rows[1..], id);
      assert Ids(rows) == {rows[0].id} + Ids(rows[1..]);
      if rest.None? then None else Some(rest.value + 1)
  }

  /** With unique ids, the row found for a stored product's id is that product's row. */
  lemma IndexOfStoredId(rows: seq<Product>, k: nat)
    requires UniqueColumns(rows) && k < |rows|
    ensures IndexOfId(rows, rows[k].id) == Some(k)
  {
    assert rows[k].id in Ids(rows);
  }

  /** One image row per URL, in order, owned by `owner`, with consecutive ids from `firstId`. */
  function NewImages(owner: string, urls: seq<string>, firstId: nat): (rows: seq<ImageRow>)
    ensures |rows| == |urls|
    ensures forall k :: 0 <= k < |rows| ==>
      rows[k].url == urls[k] && rows[k].ownerId == owner && rows[k].id == firstId + k
  {
    if urls == [] then [] else [ImageRow(firstId, owner, urls[0])] + NewImages(owner, urls[1..], firstId + 1)
  }

  /** The rows of `owner`, in storage order. */
  function OwnedBy(rows: seq<ImageRow>, owner: string): (r: seq<ImageRow>)
    ensures |r| <= |rows|
    ensures forall k :: 0 <= k < |r| ==> r[k].ownerId == owner && r[k] in rows
    ensures forall k :: 0 <= k < |rows| && rows[k].ownerId == owner ==> rows[k] in r
    ensures (forall k, l :: 0 <= k < l < |rows| ==> rows[k].id < rows[l].id) ==>
            (forall k, l :: 0 <= k < l < |r| ==> r[k].id < r[l].id)
  {
    if rows == [] then []
    else
      var rest := OwnedBy(rows[1..], owner);
      assert forall k :: 0 <= k < |rest| ==> rest[k] in rows[1..];
      (if rows[0].ownerId == owner then [rows[0]] else []) + rest
  }

  /** The rows of every owner but `owner`, in storage order; increasing ids stay increasing. */
  function NotOwnedBy(rows: seq<ImageRow>, owner: string): (r: seq<ImageRow>)
    ensures forall k :: 0 <= k < |r| ==> r[k].ownerId != owner && r[k] in rows
    ensures forall k :: 0 <= k < |rows| && rows[k].ownerId != owner ==> rows[k] in r
    ensures (forall k, l :: 0 <= k < l < |rows| ==> rows[k].id < rows[l].id) ==>
            (forall k, l :: 0 <= k < l < |r| ==> r[k].id < r[l].id)
  {
    if rows == [] then []
    else
      var rest := NotOwnedBy(rows[1..], owner);
      if rows[0].ownerId != owner then
        assert forall k :: 0 <= k < |rest| ==> rest[k] in rows[1..];
        [rows[0]] + rest
      else rest
  }

  /** The URL of each row, in order. */
  function Urls(rows: seq<ImageRow>): (urls: seq<string>)
    ensures |urls| == |rows|
    ensures forall k :: 0 <= k < |rows| ==> urls[k] == rows[k].url
  {
    if rows == [] then [] else [rows[0].url] + Urls(rows[1..])
  }

  /** The URLs of the images the product `owner` owns, in storage order. */
  function OwnedUrls(db: Database, owner: string): seq<string> {
    Urls(OwnedBy(db.images, owner))
  }

  lemma {:induction false} OwnedByAppend(a: seq<ImageRow>, b: seq<ImageRow>, owner: string)
    ensures OwnedBy(a + b, owner) == OwnedBy(a, owner) + OwnedBy(b, owner)
  {
    if a == [] {
      assert a + b == b;
    } else {
      assert (a + b)[0] == a[0];
      assert (a + b)[1..] == a[1..] + b;
      OwnedByAppend(a[1..], b, owner);
    }
  }

  /** Rows built for `owner` belong to `owner` only. */
  lemma {:induction false} OwnedByNewImages(owner: string, urls: seq<string>, firstId: nat, other: string)
    ensures OwnedBy(NewImages(owner, urls, firstId), owner) == NewImages(owner, urls, firstId)
    ensures other != owner ==> OwnedBy(NewImages(owner, urls, firstId), other) == []
  {
    if urls != [] {
      var rows := NewImages(owner, urls, firstId);
      assert rows[1..] == NewImages(owner, urls[1..], firstId + 1);
      OwnedByNewImages(owner, urls[1..], firstId + 1, other);
    }
  }

  /** A table in which no row belongs to `owner` has nothing owned by `owner`. */
  lemma {:induction false} OwnedByNone(rows: seq<ImageRow>, owner: string)
    requires forall k :: 0 <= k < |rows| ==> rows[k].ownerId != owner
    ensures OwnedBy(rows, owner) == []
  {
    if rows != [] {
      OwnedByNone(rows[1..], owner);
    }
  }

  /** Deleting the rows of `owner` leaves every other owner's rows, in order. */
  lemma {:induction false} OwnedByNotOwnedBy(rows: seq<ImageRow>, owner: string, other: string)
    requires other != owner
    ensures OwnedBy(NotOwnedBy(rows, owner), other) == OwnedBy(rows, other)
  {
    if rows != [] {
      OwnedByNotOwnedBy(rows[1..], owner, other);
      if rows[0].ownerId != owner {
        var rest := NotOwnedBy(rows[1..], owner);
        assert NotOwnedBy(rows, owner) == [rows[0]] + rest;
        assert ([rows[0]] + rest)[1..] == rest;
      }
    }
  }

  lemma UrlsOfNewImages(owner: string, urls: seq<string>, firstId: nat)
    ensures Urls(NewImages(owner, urls, firstId)) == urls
  {
  }

  /** Saving a new product together with one image row per URL. */
  function InsertProduct(db: Database, p: Product, urls: seq<string>): (r: Database)
    requires Valid(db) && IsStoredUuid(p.id) && Conflict(db.products, p, true).None?
    ensures Valid(r)
    ensures r.products == db.products + [p]
    ensures OwnedUrls(r, p.id) == urls
    ensures r.images == db.images + NewImages(p.id, urls, db.nextImageId)
    ensures forall o :: o != p.id ==> OwnedBy(r.images, o) == OwnedBy(db.images, o)
  {
    var added := NewImages(p.id, urls, db.nextImageId);
    var r := Database(db.products + [p], db.images + added, db.nextImageId + |urls|);
    InsertKeepsValid(db, p, urls);
    assert p.id !in Ids(db.products);
    AppendOwnership(db.images, p.id, urls, db.nextImageId);
    r
  }

  /** Appending new rows for an owner that had none: that owner's URLs are
      exactly the new ones, every other owner's rows are unchanged. */
  lemma AppendOwnership(images: seq<ImageRow>, owner: string, urls: seq<string>, firstId: nat)
    requires forall k :: 0 <= k < |images| ==> images[k].ownerId != owner
    ensures Urls(OwnedBy(images + NewImages(owner, urls, firstId), owner)) == urls
    ensures forall o :: o != owner ==> OwnedBy(images + NewImages(owner, urls, firstId), o) == OwnedBy(images, o)
  {
    var added := NewImages(owner, urls, firstId);
    OwnedByNone(images, owner);
    OwnedByAppend(images, added, owner);
    OwnedByNewImages(owner, urls, firstId, owner);
    assert OwnedBy(images + added, owner) == added by {
      assert [] + added == added;
    }
    UrlsOfNewImages(owner, urls, firstId);
    forall o | o != owner ensures OwnedBy(images + added, o) == OwnedBy(images, o) {
      AppendOthers(images, owner, urls, firstId, o);
    }
  }

  lemma AppendOthers(images: seq<ImageRow>, owner: string, urls: seq<string>, firstId: nat, other: string)
    requires other != owner
    ensures OwnedBy(images + NewImages(owner, urls, firstId), other) == OwnedBy(images, other)
  {
    var added := NewImages(owner, urls, firstId);
    OwnedByAppend(images, added, other);
    OwnedByNewImages(owner, urls, firstId, other);
    assert OwnedBy(images, other) + [] == OwnedBy(images, other);
  }

  lemma InsertKeepsValid(db: Database, p: Product, urls: seq<string>)
    requires Valid(db) && IsStoredUuid(p.id) && Conflict(db.products, p, true).None?
    ensures Valid(Database(db.products + [p], db.images + NewImages(p.id, urls, db.nextImageId), db.nextImageId + |urls|))
  {
    AppendKeepsUnique(db.products, p);
    AppendRowKeeps(db.products, p);
    ImagesValidWiden(db.images, db.nextImageId, Ids(db.products), Ids(db.products + [p]));
    AppendImagesValid(db.images, db.nextImageId, Ids(db.products + [p]), p.id, urls);
  }

  /** Appending a row with a UUID-shaped id adds exactly that id. */
  lemma AppendRowKeeps(rows: seq<Product>, p: Product)
    requires UuidIds(rows) && IsStoredUuid(p.id)
    ensures UuidIds(rows + [p])
    ensures Ids(rows + [p]) == Ids(rows) + {p.id}
  {
    var r := rows + [p];
    forall i | 0 <= i < |r| ensures IsStoredUuid(r[i].id) {
      if i < |rows| { assert r[i] == rows[i]; }
    }
    forall x | x in Ids(rows) ensures x in Ids(r) {
      var q :| q in rows && q.id == x;
      assert q in r;
    }
    assert r[|rows|] == p;
  }

  /** Saving the merged row `p` over the stored row `k` with the same id. */
  function UpdateProduct(db: Database, k: nat, p: Product): (r: Database)
    requires Valid(db) && k < |db.products| && db.products[k].id == p.id
    requires Conflict(db.products, p, false).None?
    ensures Valid(r)
    ensures r.products == db.products[k := p] && r.images == db.images && r.nextImageId == db.nextImageId
    ensures Ids(r.products) == Ids(db.products)
  {
    ReplaceKeepsUnique(db.products, k, p);
    var r := Database(db.products[k := p], db.images, db.nextImageId);
    assert Ids(r.products) == Ids(db.products) by {
      forall id | id in Ids(db.products) ensures id in Ids(r.products) {
        var q :| q in db.products && q.id == id;
        var j :| 0 <= j < |db.products| && db.products[j] == q;
        assert r.products[j].id == id;
      }
    }
    r
  }

  /** Deleting every image row of `owner`. */
  function DeleteImagesOf(db: Database, owner: string): (r: Database)
    requires Valid(db)
    ensures Valid(r)
    ensures r.products == db.products && r.nextImageId == db.nextImageId
    ensures r.images == NotOwnedBy(db.images, owner)
    ensures OwnedBy(r.images, owner) == []
    ensures forall o :: o != owner ==> OwnedBy(r.images, o) == OwnedBy(db.images, o)
  {
    var r := Database(db.products, NotOwnedBy(db.images, owner), db.nextImageId);
    OwnedByNone(r.images, owner);
    forall o | o != owner ensures OwnedBy(r.images, o) == OwnedBy(db.images, o) {
      OwnedByNotOwnedBy(db.images, owner, o);
    }
    r
  }

  /** Saving one new image row per URL for the stored product `owner`. */
  function AttachImages(db: Database, owner: string, urls: seq<string>): (r: Database)
    requires Valid(db) && owner in Ids(db.products)
    ensures Valid(r)
    ensures r.products == db.products
    ensures r.images == db.images + NewImages(owner, urls, db.nextImageId)
    ensures r.nextImageId == db.nextImageId + |urls|
    ensures OwnedBy(r.images, owner) == OwnedBy(db.images, owner) + NewImages(owner, urls, db.nextImageId)
    ensures forall o :: o != owner ==> OwnedBy(r.images, o) == OwnedBy(db.images, o)
  {
    var added := NewImages(owner, urls, db.nextImageId);
    AppendImagesValid(db.images, db.nextImageId, Ids(db.products), owner, urls);
    OwnedByAppend(db.images, added, owner);
    OwnedByNewImages(owner, urls, db.nextImageId, owner);
    forall o | o != owner ensures OwnedBy(db.images + added, o) == OwnedBy(db.images, o) {
      OwnedByAppend(db.images, added, o);
      OwnedByNewImages(owner, urls, db.nextImageId, o);
    }
    Database(db.products, db.images + added, db.nextImageId + |urls|)
  }

  /** Deleting the product row `k`; the foreign key cascades to its image rows. */
  function RemoveProduct(db: Database, k: nat): (r: Database)
    requires Valid(db) && k < |db.products|
    ensures Valid(r)
    ensures r.products == db.products[..k] + db.products[k + 1..]
    ensures Ids(r.products) == Ids(db.products) - {db.products[k].id}
    ensures forall q :: q in db.products && q.id != db.products[k].id ==> q in r.products
    ensures OwnedBy(r.images, db.products[k].id) == []
    ensures forall o :: o != db.products[k].id ==> OwnedBy(r.images, o) == OwnedBy(db.images, o)
    ensures r.nextImageId == db.nextImageId
  {
    var rows := db.products[..k] + db.products[k + 1..];
    RemoveRowKeeps(db.products, k);
    RemoveKeepsUnique(db.products, k);
    var cleared := DeleteImagesOf(db, db.products[k].id);
    RemoveKeepsValid(db.products, k, cleared.images, db.nextImageId);
    Database(rows, cleared.images, db.nextImageId)
  }

  /** Dropping row `k` keeps every other row and drops exactly its id. */
  lemma RemoveRowKeeps(rows: seq<Product>, k: nat)
    requires UniqueColumns(rows) && k < |rows|
    ensures forall q :: q in rows && q.id != rows[k].id ==> q in rows[..k] + rows[k + 1..]
    ensures Ids(rows[..k] + rows[k + 1..]) == Ids(rows) - {rows[k].id}
  {
    var r := rows[..k] + rows[k + 1..];
    forall q | q in rows && q.id != rows[k].id ensures q in r {
      var j :| 0 <= j < |rows| && rows[j] == q;
      if j < k { assert r[j] == q; } else { assert r[j - 1] == q; }
    }
    forall q | q in r ensures q in rows && q.id != rows[k].id {
      var j :| 0 <= j < |r| && r[j] == q;
      if j < k { assert rows[j] == q; } else { assert rows[j + 1] == q; }
    }
  }

  lemma RemoveKeepsValid(products: seq<Product>, k: nat, images: seq<ImageRow>, nextImageId: nat)
    requires k < |products| && UuidIds(products)
    requires ImagesValid(images, nextImageId, Ids(products))
    requires forall j :: 0 <= j < |images| ==> images[j].ownerId != products[k].id
    requires Ids(products[..k] + products[k + 1..]) == Ids(products) - {products[k].id}
    requires UniqueColumns(products[..k] + products[k + 1..])
    ensures Valid(Database(products[..k] + products[k + 1..], images, nextImageId))
  {
    var rows := products[..k] + products[k + 1..];
    assert UuidIds(rows) by {
      forall i | 0 <= i < |rows| ensures IsStoredUuid(rows[i].id) {
        if i < k { assert rows[i] == products[i]; } else { assert rows[i] == products[i + 1]; }
      }
    }
  }

  /** Deleting every product; the cascade empties the image table. */
  function RemoveAll(db: Database): (r: Database)
    ensures Valid(r)
    ensures r.products == [] && r.images == [] && r.nextImageId == db.nextImageId
  {
    Database([], [], db.nextImageId)
  }
}
