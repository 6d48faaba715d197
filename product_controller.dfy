/** The product handlers (controllers/productControllers.js): `addProduct`
    creates a product and appends it to its firm's list, `getProductByFirm` reads
    a firm's name and products, and `deleteProductById` removes a product and
    pulls it from its firm's list. */
module ProductController {
  import opened Basics
  import opened FirmModel
  import opened ProductModel
  import opened Database

  /** The fields `addProduct` takes from the request body. */
  datatype ProductBody = ProductBody(
    productName: Option<string>,
    price: Option<string>,
    category: seq<string>,
    bestSeller: Option<bool>,
    description: Option<string>)

  /** The success payload of `getProductByFirm`. */
  datatype Listing = Listing(restaurantName: Option<string>, products: seq<Entry>)

  /** The document `new Product(...)` builds: the submitted fields, the uploaded
      file's name if there was one, and the firm as a one-element list. */
  function NewProduct(body: ProductBody, image: Option<string>, firmId: Id): Product {
    Product(body.productName, body.price, body.category, image, body.bestSeller, body.description, [firmId])
  }

  // ---------------------------------------------------------------------------
  // addProduct

  /** The effect of `addProduct`, with `id` the ObjectId the new document receives.
      Round trips: 0 finds the firm, 1 saves the product, 2 saves the firm. The
      firm's re-save is validated like any save, but does not touch its name. */
  function AddProductSpec(t: Tables, firmId: Id, body: ProductBody, image: Option<string>,
                          fault: StoreFault, id: Id): Step<Entry>
  {
    if fault == FailsAt(0) then Step(Internal, t)
    else if firmId !in t.firms then Step(NotFound, t)
    else
      var product := NewProduct(body, image, firmId);
      if fault == FailsAt(1) || !ProductModel.SchemaOk(product) then Step(Internal, t)
      else
        var saved := t.(products := t.products[id := product]);
        var firm := t.firms[firmId];
        var updated := firm.(products := firm.products + [id]);
        if fault == FailsAt(2) || !FirmModel.SchemaOk(updated) then Step(Internal, saved)
        else Step(Ok(Entry(id, product)), saved.(firms := t.firms[firmId := updated]))
  }

  /** The `addProduct` handler. The product is saved before the firm, so a failure
      of the firm save leaves the new product behind, unlisted. */
  method AddProduct(db: Store, firmId: Id, body: ProductBody, image: Option<string>, fault: StoreFault)
    returns (r: Response<Entry>, ghost newId: Id)
    modifies db
    ensures Fresh(old(db.Snapshot()), newId)
    ensures Step(r, db.Snapshot()) == AddProductSpec(old(db.Snapshot()), firmId, body, image, fault, newId)
  {
    // The ObjectId is drawn up front; drawing it changes no collection.
    var id := db.FreshId();
    newId := id;
    if fault == FailsAt(0) {
      return Internal, newId;
    }
    if firmId !in db.firms {
      return NotFound, newId;
    }
    var firm := db.firms[firmId];
    var product := NewProduct(body, image, firmId);
    if fault == FailsAt(1) || !ProductModel.SchemaOk(product) {
      return Internal, newId;
    }
    db.products := db.products[id := product];
    // A Mongoose array path always reads as an array (empty by default), so the
    // source's "create the list if it is missing" step has nothing to do here.
    firm := firm.(products := firm.products + [id]);
    if fault == FailsAt(2) || !FirmModel.SchemaOk(firm) {
      return Internal, newId;
    }
    db.firms := db.firms[firmId := firm];
    r := Ok(Entry(id, product));
  }

  /** An unknown firm: NotFound, and no product is created. */
  lemma AddProductUnknownFirm(t: Tables, firmId: Id, body: ProductBody, image: Option<string>,
                              fault: StoreFault, id: Id)
    requires fault != FailsAt(0) && firmId !in t.firms
    ensures AddProductSpec(t, firmId, body, image, fault, id) == Step(NotFound, t)
  {
  }

  /** A product the schema refuses (name or price missing or empty, a category tag
      other than `veg` or `non-veg`): Internal, and no collection changes. */
  lemma AddProductRefused(t: Tables, firmId: Id, body: ProductBody, image: Option<string>,
                          fault: StoreFault, id: Id)
    requires fault != FailsAt(0) && firmId in t.firms
    requires !RequiredString(body.productName) || !RequiredString(body.price)
             || exists i | 0 <= i < |body.category| :: !AllowedCategory(body.category[i])
    ensures AddProductSpec(t, firmId, body, image, fault, id) == Step(Internal, t)
  {
  }

  /** `addProduct` succeeds exactly when the store stays up, the firm exists and
      passes validation, and the new product passes validation. */
  lemma AddProductSucceedsIff(t: Tables, firmId: Id, body: ProductBody, image: Option<string>,
                              fault: StoreFault, id: Id)
    ensures AddProductSpec(t, firmId, body, image, fault, id).response.Ok? <==>
              && fault !in {FailsAt(0), FailsAt(1), FailsAt(2)}
              && firmId in t.firms && FirmModel.SchemaOk(t.firms[firmId])
              && RequiredString(body.productName) && RequiredString(body.price)
              && forall i | 0 <= i < |body.category| :: AllowedCategory(body.category[i])
  {
  }

  /** On success the new product is stored under the fresh id with the submitted
      fields, the upload's file name (or none) and the firm as its one reference;
      the firm's list is its old list with the new id appended; the answer carries
      the new product; every other document is as before. */
  lemma AddProductCreates(t: Tables, firmId: Id, body: ProductBody, image: Option<string>,
                          fault: StoreFault, id: Id)
    requires Fresh(t, id)
    ensures var s := AddProductSpec(t, firmId, body, image, fault, id);
      s.response.Ok? ==>
        && id !in t.products && s.after.products.Keys == t.products.Keys + {id}
        && var p := s.after.products[id];
        && p.productName == body.productName && p.price == body.price && p.category == body.category
        && p.bestSeller == body.bestSeller && p.description == body.description && p.image == image
        && p.firm == [firmId]
        && s.response.value == Entry(id, p)
        && firmId in t.firms && s.after.firms.Keys == t.firms.Keys
        && s.after.firms[firmId] == t.firms[firmId].(products := t.firms[firmId].products + [id])
        && (forall f | f in t.firms && f != firmId :: s.after.firms[f] == t.firms[f])
        && (forall q | q in t.products :: s.after.products[q] == t.products[q])
        && s.after.vendors == t.vendors
  {
  }

  /** If the firm save fails after the product was saved, the answer is Internal and
      the new product is left behind, naming a firm that does not list it. */
  lemma AddProductInterrupted(t: Tables, firmId: Id, body: ProductBody, image: Option<string>, id: Id)
    requires Fresh(t, id)
    requires firmId in t.firms && ProductModel.SchemaOk(NewProduct(body, image, firmId))
    ensures var s := AddProductSpec(t, firmId, body, image, FailsAt(2), id);
      && s.response == Internal
      && id in s.after.products && s.after.products[id].firm == [firmId]
      && s.after.firms == t.firms
      && !ProductsOwned(s.after)
  {
    var s := AddProductSpec(t, firmId, body, image, FailsAt(2), id);
    assert s.after.products[id].firm[0] == firmId;
  }

  /** Unless it is interrupted between its two writes, `addProduct` keeps the store consistent. */
  lemma AddProductPreservesValid(t: Tables, firmId: Id, body: ProductBody, image: Option<string>,
                                 fault: StoreFault, id: Id)
    requires Valid(t) && Fresh(t, id)
    requires fault != FailsAt(2)
    ensures Valid(AddProductSpec(t, firmId, body, image, fault, id).after)
  {
    var s := AddProductSpec(t, firmId, body, image, fault, id);
    if s.response.Ok? {
      var u := s.after;
      var firm := t.firms[firmId];
      assert u.firms == t.firms[firmId := firm.(products := firm.products + [id])];
      assert u.products == t.products[id := NewProduct(body, image, firmId)];
      forall f, p | f in u.firms && p in u.firms[f].products
        ensures p in u.products && u.products[p].firm == [f]
      {
        if f == firmId && p !in firm.products {
          assert p == id;
        }
      }
      assert ProductsOwned(u);
    }
  }

  /** After a successful `addProduct` the firm's listing is its old listing with the
      new product at the end. */
  lemma ListingAfterAddProduct(t: Tables, firmId: Id, body: ProductBody, image: Option<string>,
                               fault: StoreFault, id: Id)
    requires Fresh(t, id)
    requires AddProductSpec(t, firmId, body, image, fault, id).response.Ok?
    ensures var u := AddProductSpec(t, firmId, body, image, fault, id).after;
      Populate(u.firms[firmId].products, u.products)
        == Populate(t.firms[firmId].products, t.products) + [Entry(id, NewProduct(body, image, firmId))]
  {
    var u := AddProductSpec(t, firmId, body, image, fault, id).after;
    var old_ids := t.firms[firmId].products;
    var p := NewProduct(body, image, firmId);
    PopulateConcat(old_ids, [id], u.products);
    PopulateUnlisted(old_ids, t.products, id, p);
    assert Populate([id], u.products) == [Entry(id, p)];
  }

  // ---------------------------------------------------------------------------
  // getProductByFirm

  /** The `getProductByFirm` handler: a read of one firm with its product list
      populated (one round trip, 0). It changes nothing. */
  method GetProductByFirm(db: Store, firmId: Id, fault: StoreFault) returns (r: Response<Listing>)
    ensures r.Internal? <==> fault == FailsAt(0)
    ensures r.NotFound? <==> fault != FailsAt(0) && firmId !in db.firms
    ensures r.Ok? <==> fault != FailsAt(0) && firmId in db.firms
    ensures r.Ok? ==>
              && r.value.restaurantName == db.firms[firmId].firmName
              && r.value.products == Populate(db.firms[firmId].products, db.products)
  {
    if fault == FailsAt(0) {
      return Internal;
    }
    if firmId !in db.firms {
      return NotFound;
    }
    var firm := db.firms[firmId];
    r := Ok(Listing(firm.firmName, Populate(firm.products, db.products)));
  }

  /** In a consistent store a firm's listing holds exactly the products its list
      names, in list order, and each of them names that firm. */
  lemma ListingOfConsistentFirm(t: Tables, firmId: Id)
    requires Valid(t) && firmId in t.firms
    ensures var ids := t.firms[firmId].products;
      var r := Populate(ids, t.products);
      && |r| == |ids|
      && forall k | 0 <= k < |r| :: r[k].id == ids[k] && r[k].product.firm == [firmId]
  {
    var ids := t.firms[firmId].products;
    assert forall i | i in ids :: i in t.products && t.products[i].firm == [firmId];
    var r := Populate(ids, t.products);
    forall k | 0 <= k < |r| ensures r[k].product.firm == [firmId] {
      assert r[k].id in ids;
    }
  }

  // ---------------------------------------------------------------------------
  // deleteProductById

  /** The effect of `deleteProductById`. Round trips: 0 finds the product, 1 pulls
      it from the firm its `firm` list names, 2 deletes it. */
  function DeleteProductSpec(t: Tables, productId: Id, fault: StoreFault): Step<()>
  {
    if fault == FailsAt(0) then Step(Internal, t)
    else if productId !in t.products then Step(NotFound, t)
    else if fault == FailsAt(1) then Step(Internal, t)
    else
      var pulled := t.(firms := PullProduct(t.firms, t.products[productId].firm, productId));
      if fault == FailsAt(2) then Step(Internal, pulled)
      else Step(Ok(()), pulled.(products := t.products - {productId}))
  }

  /** The `deleteProductById` handler. */
  method DeleteProductById(db: Store, productId: Id, fault: StoreFault) returns (r: Response<()>)
    modifies db
    ensures Step(r, db.Snapshot()) == DeleteProductSpec(old(db.Snapshot()), productId, fault)
  {
    if fault == FailsAt(0) {
      return Internal;
    }
    if productId !in db.products {
      return NotFound;
    }
    var product := db.products[productId];
    if fault == FailsAt(1) {
      return Internal;
    }
    db.firms := PullProduct(db.firms, product.firm, productId);
    if fault == FailsAt(2) {
      return Internal;
    }
    db.products := db.products - {productId};
    r := Ok(());
  }

  /** An unknown product: NotFound, and no collection changes. */
  lemma DeleteProductUnknown(t: Tables, productId: Id, fault: StoreFault)
    requires fault != FailsAt(0) && productId !in t.products
    ensures DeleteProductSpec(t, productId, fault) == Step(NotFound, t)
  {
  }

  /** On success the product is gone and at most one firm changed: one named in the
      product's `firm` list, whose `products` lost every occurrence of the id (no
      change if it had none); if any stored firm is named, one of them is pulled from.
      Vendors and other products are untouched. */
  lemma DeleteProductEffect(t: Tables, productId: Id, fault: StoreFault)
    ensures var s := DeleteProductSpec(t, productId, fault);
      s.response.Ok? ==>
        && productId in t.products && s.after.products == t.products - {productId}
        && s.after.vendors == t.vendors
        && s.after.firms.Keys == t.firms.Keys
        && (forall f | f in t.firms ::
              s.after.firms[f] == t.firms[f]
              || (f in t.products[productId].firm
                  && s.after.firms[f] == t.firms[f].(products := Pull(t.firms[f].products, productId))))
        && (forall f, g | f in t.firms && g in t.firms
              && s.after.firms[f] != t.firms[f] && s.after.firms[g] != t.firms[g] :: f == g)
        && (FirmsIn(t.firms, t.products[productId].firm) != {} ==>
              exists f | f in FirmsIn(t.firms, t.products[productId].firm) ::
                s.after.firms[f] == t.firms[f].(products := Pull(t.firms[f].products, productId)))
  {
    var s := DeleteProductSpec(t, productId, fault);
    if s.response.Ok? {
      PullProductTouchesOneMatch(t.firms, t.products[productId].firm, productId);
    }
  }

  /** In a consistent store, deleting a product (unless interrupted between its two
      writes) keeps the store consistent, and on success no firm lists it any more. */
  lemma DeleteProductPreservesValid(t: Tables, productId: Id, fault: StoreFault)
    requires Valid(t)
    requires fault != FailsAt(2)
    ensures var s := DeleteProductSpec(t, productId, fault);
      && Valid(s.after)
      && (s.response.Ok? ==> forall f | f in s.after.firms :: productId !in s.after.firms[f].products)
  {
    var s := DeleteProductSpec(t, productId, fault);
    if s.response.Ok? {
      var owner := t.products[productId].firm[0];
      assert t.products[productId].firm == [owner];
      var firms := PullProduct(t.firms, [owner], productId);
      assert s.after == Tables(t.vendors, firms, t.products - {productId});
      UnlistedAfterDelete(t, productId, owner);
      OnlyListsChangeOnPull(t.firms, [owner], productId);
    }
  }

  /** After the pull from the owning firm, every list holds only products that
      remain stored and name that firm, and the owner's products are still listed. */
  lemma UnlistedAfterDelete(t: Tables, productId: Id, owner: Id)
    requires ProductsListed(t) && ProductsOwned(t)
    requires productId in t.products && t.products[productId].firm == [owner]
    ensures var u := Tables(t.vendors, PullProduct(t.firms, [owner], productId), t.products - {productId});
      && ProductsListed(u) && ProductsOwned(u)
      && forall f | f in u.firms :: productId !in u.firms[f].products
  {
    var u := Tables(t.vendors, PullProduct(t.firms, [owner], productId), t.products - {productId});
    PullOwnerMembers(t.firms, owner, productId);
    assert ProductsListed(u);
    assert ProductsOwned(u) by {
      forall p | p in u.products && u.products[p].firm[0] in u.firms
        ensures p in u.firms[u.products[p].firm[0]].products
      {
        assert p in t.firms[t.products[p].firm[0]].products;
      }
    }
  }

  /** Deleting a product right after creating it restores every collection exactly. */
  lemma AddProductThenDelete(t: Tables, firmId: Id, body: ProductBody, image: Option<string>,
                             fault: StoreFault, id: Id)
    requires Fresh(t, id)
    requires AddProductSpec(t, firmId, body, image, fault, id).response.Ok?
    ensures DeleteProductSpec(AddProductSpec(t, firmId, body, image, fault, id).after, id, Healthy)
              == Step(Ok(()), t)
  {
    var u := AddProductSpec(t, firmId, body, image, fault, id).after;
    var firm := t.firms[firmId];
    var listed := t.firms[firmId := firm.(products := firm.products + [id])];
    assert u == Tables(t.vendors, listed, t.products[id := NewProduct(body, image, firmId)]);
    assert u.products[id].firm == [firmId];
    PullFromOnlyOwner(listed, firmId, id);
    PullAppended(firm.products, id);
    assert PullProduct(listed, [firmId], id) == t.firms;
    assert u.products - {id} == t.products;
  }

  /** A second delete of the same product answers NotFound and changes nothing. */
  lemma DeleteProductTwice(t: Tables, productId: Id)
    requires DeleteProductSpec(t, productId, Healthy).response.Ok?
    ensures var u := DeleteProductSpec(t, productId, Healthy).after;
      DeleteProductSpec(u, productId, Healthy) == Step(NotFound, u)
  {
  }
}
