/** The firm handlers (controllers/firmController.js): `addFirm` creates a firm
    for a vendor and links the vendor to it; `deleteFirmById` unlinks the vendor
    and removes the firm. Each handler is a method over the store, proved to have
    the effect of a specification function over `Tables`; the lemmas state what
    those effects mean. */
module FirmController {
  import opened Basics
  import opened FirmModel
  import opened Database

  /** The fields `addFirm` takes from the request body. */
  datatype FirmBody = FirmBody(
    firmName: Option<string>,
    area: Option<string>,
    category: seq<string>,
    region: seq<string>,
    offer: Option<string>)

  /** The success payload of `addFirm`: the new firm's id and name. */
  datatype FirmCreated = FirmCreated(firmId: Id, vendorFirmName: string)

  /** The document `new Firm(...)` builds: the submitted attributes, the uploaded
      file's name if there was one, the vendor reference, and an empty product list. */
  function NewFirm(body: FirmBody, image: Option<string>, vendorId: Id): Firm {
    Firm(body.firmName, body.area, body.category, body.region, body.offer, image, Some(vendorId), [])
  }

  // ---------------------------------------------------------------------------
  // addFirm

  /** The effect of `addFirm`, with `id` the ObjectId the new document receives.
      Round trips: 0 finds the vendor, 1 saves the firm, 2 saves the vendor. */
  function AddFirmSpec(t: Tables, vendorId: Id, body: FirmBody, image: Option<string>,
                       fault: StoreFault, id: Id): Step<FirmCreated>
  {
    if fault == FailsAt(0) then Step(Internal, t)
    else if vendorId !in t.vendors then Step(NotFound, t)
    else
      var vendor := t.vendors[vendorId];
      if vendor.firm.Some? then Step(Conflict, t)
      else
        var firm := NewFirm(body, image, vendorId);
        if fault == FailsAt(1) || !Insertable(t.firms, firm) then Step(Internal, t)
        else
          var saved := t.(firms := t.firms[id := firm]);
          if fault == FailsAt(2) then Step(Internal, saved)
          else
            Step(Ok(FirmCreated(id, firm.firmName.value)),
                 saved.(vendors := t.vendors[vendorId := vendor.(firm := Some(id))]))
  }

  /** The `addFirm` handler. The firm is saved before the vendor, so a failure of
      the vendor save leaves the new firm behind. */
  method AddFirm(db: Store, vendorId: Id, body: FirmBody, image: Option<string>, fault: StoreFault)
    returns (r: Response<FirmCreated>, ghost newId: Id)
    modifies db
    ensures Fresh(old(db.Snapshot()), newId)
    ensures Step(r, db.Snapshot()) == AddFirmSpec(old(db.Snapshot()), vendorId, body, image, fault, newId)
  {
    // The ObjectId is drawn up front; drawing it changes no collection.
    var id := db.FreshId();
    newId := id;
    if fault == FailsAt(0) {
      return Internal, newId;
    }
    if vendorId !in db.vendors {
      return NotFound, newId;
    }
    var vendor := db.vendors[vendorId];
    if vendor.firm.Some? {
      return Conflict, newId;
    }
    var firm := NewFirm(body, image, vendorId);
    if fault == FailsAt(1) || !Insertable(db.firms, firm) {
      return Internal, newId;
    }
    db.firms := db.firms[id := firm];
    if fault == FailsAt(2) {
      return Internal, newId;
    }
    db.vendors := db.vendors[vendorId := vendor.(firm := Some(id))];
    r := Ok(FirmCreated(id, firm.firmName.value));
  }

  /** An unknown vendor: NotFound, and no collection changes. */
  lemma AddFirmUnknownVendor(t: Tables, vendorId: Id, body: FirmBody, image: Option<string>,
                             fault: StoreFault, id: Id)
    requires fault != FailsAt(0) && vendorId !in t.vendors
    ensures AddFirmSpec(t, vendorId, body, image, fault, id) == Step(NotFound, t)
  {
  }

  /** A vendor that already has a firm: Conflict, no firm is created and the vendor is unchanged. */
  lemma AddFirmVendorTaken(t: Tables, vendorId: Id, body: FirmBody, image: Option<string>,
                           fault: StoreFault, id: Id)
    requires fault != FailsAt(0) && vendorId in t.vendors && t.vendors[vendorId].firm.Some?
    ensures AddFirmSpec(t, vendorId, body, image, fault, id) == Step(Conflict, t)
  {
  }

  /** The firm save fails (the store is down at that call, a required field is
      missing or empty, or the name is taken): Internal, and the vendor's `firm`
      stays unset because the vendor is written only after the firm. */
  lemma AddFirmRefused(t: Tables, vendorId: Id, body: FirmBody, image: Option<string>,
                       fault: StoreFault, id: Id)
    requires fault != FailsAt(0) && vendorId in t.vendors && t.vendors[vendorId].firm.None?
    requires fault == FailsAt(1) || !Insertable(t.firms, NewFirm(body, image, vendorId))
    ensures AddFirmSpec(t, vendorId, body, image, fault, id) == Step(Internal, t)
  {
  }

  /** `addFirm` succeeds exactly when the store stays up, the vendor exists and has
      no firm, and the new document passes validation with an unused name. */
  lemma AddFirmSucceedsIff(t: Tables, vendorId: Id, body: FirmBody, image: Option<string>,
                           fault: StoreFault, id: Id)
    ensures AddFirmSpec(t, vendorId, body, image, fault, id).response.Ok? <==>
              && fault !in {FailsAt(0), FailsAt(1), FailsAt(2)}
              && vendorId in t.vendors && t.vendors[vendorId].firm.None?
              && RequiredString(body.firmName) && RequiredString(body.area)
              && NameFree(t.firms, body.firmName)
  {
  }

  /** On success the new firm is stored under the fresh id with the submitted
      attributes, the upload's file name (or none), the vendor reference and no
      products; the vendor now refers to it; the answer reports its id and name;
      every other document is as before. */
  lemma AddFirmCreates(t: Tables, vendorId: Id, body: FirmBody, image: Option<string>,
                       fault: StoreFault, id: Id)
    requires Fresh(t, id)
    ensures var s := AddFirmSpec(t, vendorId, body, image, fault, id);
      s.response.Ok? ==>
        && id !in t.firms && s.after.firms.Keys == t.firms.Keys + {id}
        && var f := s.after.firms[id];
        && f.firmName == body.firmName && f.area == body.area && f.category == body.category
        && f.region == body.region && f.offer == body.offer && f.image == image
        && f.vendor == Some(vendorId) && f.products == []
        && s.response.value == FirmCreated(id, body.firmName.value)
        && vendorId in s.after.vendors && s.after.vendors[vendorId].firm == Some(id)
        && s.after.vendors[vendorId].account == t.vendors[vendorId].account
        && s.after.vendors.Keys == t.vendors.Keys
        && (forall v | v in t.vendors && v != vendorId :: s.after.vendors[v] == t.vendors[v])
        && (forall g | g in t.firms :: s.after.firms[g] == t.firms[g])
        && s.after.products == t.products
  {
  }

  /** If the vendor save fails after the firm was saved, the answer is Internal and
      the new firm is left behind pointing at a vendor that does not point back:
      the two writes are not atomic. */
  lemma AddFirmInterrupted(t: Tables, vendorId: Id, body: FirmBody, image: Option<string>, id: Id)
    requires vendorId in t.vendors && t.vendors[vendorId].firm.None?
    requires Insertable(t.firms, NewFirm(body, image, vendorId))
    ensures var s := AddFirmSpec(t, vendorId, body, image, FailsAt(2), id);
      && s.response == Internal
      && id in s.after.firms && s.after.firms[id].vendor == Some(vendorId)
      && s.after.vendors == t.vendors
      && !FirmsOwned(s.after)
  {
  }

  /** Unless it is interrupted between its two writes, `addFirm` keeps the store
      consistent: names stay unique and the vendor and its firm refer to each other. */
  lemma AddFirmPreservesValid(t: Tables, vendorId: Id, body: FirmBody, image: Option<string>,
                              fault: StoreFault, id: Id)
    requires Valid(t) && Fresh(t, id)
    requires fault != FailsAt(2)
    ensures Valid(AddFirmSpec(t, vendorId, body, image, fault, id).after)
  {
    var s := AddFirmSpec(t, vendorId, body, image, fault, id);
    if s.response.Ok? {
      var u := s.after;
      var firm := NewFirm(body, image, vendorId);
      assert u.firms == t.firms[id := firm];
      assert u.vendors == t.vendors[vendorId := t.vendors[vendorId].(firm := Some(id))];
      // No stored firm claimed this vendor, since the vendor had no firm.
      assert forall f | f in t.firms :: t.firms[f].vendor != Some(vendorId);
      assert NamesUnique(u);
      assert VendorsLinked(u);
      assert FirmsOwned(u);
      assert ProductsListed(u);
      assert ProductsOwned(u);
    }
  }

  // ---------------------------------------------------------------------------
  // deleteFirmById

  /** The effect of `deleteFirmById`. Round trips: 0 finds the firm, 1 unsets the
      vendor's reference, 2 deletes the firm. The vendor is found by its `firm`
      field, not through the firm's `vendor` field. */
  function DeleteFirmSpec(t: Tables, firmId: Id, fault: StoreFault): Step<()>
  {
    if fault == FailsAt(0) then Step(Internal, t)
    else if firmId !in t.firms then Step(NotFound, t)
    else if fault == FailsAt(1) then Step(Internal, t)
    else
      var unlinked := t.(vendors := UnsetFirm(t.vendors, firmId));
      if fault == FailsAt(2) then Step(Internal, unlinked)
      else Step(Ok(()), unlinked.(firms := t.firms - {firmId}))
  }

  /** The `deleteFirmById` handler. */
  method DeleteFirmById(db: Store, firmId: Id, fault: StoreFault) returns (r: Response<()>)
    modifies db
    ensures Step(r, db.Snapshot()) == DeleteFirmSpec(old(db.Snapshot()), firmId, fault)
  {
    if fault == FailsAt(0) {
      return Internal;
    }
    if firmId !in db.firms {
      return NotFound;
    }
    if fault == FailsAt(1) {
      return Internal;
    }
    db.vendors := UnsetFirm(db.vendors, firmId);
    if fault == FailsAt(2) {
      return Internal;
    }
    db.firms := db.firms - {firmId};
    r := Ok(());
  }

  /** An unknown firm: NotFound, and no collection changes. */
  lemma DeleteFirmUnknown(t: Tables, firmId: Id, fault: StoreFault)
    requires fault != FailsAt(0) && firmId !in t.firms
    ensures DeleteFirmSpec(t, firmId, fault) == Step(NotFound, t)
  {
  }

  /** On success the firm is gone and at most one vendor changed: one whose `firm`
      was this firm, which loses that field and keeps the rest; if any vendor
      referred to the firm, one of them is cleared. Products are untouched,
      including those whose `firm` still names the deleted firm. */
  lemma DeleteFirmEffect(t: Tables, firmId: Id, fault: StoreFault)
    ensures var s := DeleteFirmSpec(t, firmId, fault);
      s.response.Ok? ==>
        && firmId in t.firms && s.after.firms == t.firms - {firmId}
        && s.after.products == t.products
        && s.after.vendors.Keys == t.vendors.Keys
        && (forall v | v in t.vendors ::
              s.after.vendors[v] == t.vendors[v]
              || (t.vendors[v].firm == Some(firmId) && s.after.vendors[v] == t.vendors[v].(firm := None)))
        && (forall v, w | v in t.vendors && w in t.vendors
              && s.after.vendors[v] != t.vendors[v] && s.after.vendors[w] != t.vendors[w] :: v == w)
        && ((exists v | v in t.vendors :: t.vendors[v].firm == Some(firmId)) ==>
              exists v | v in t.vendors :: t.vendors[v].firm == Some(firmId) && s.after.vendors[v].firm == None)
  {
    var s := DeleteFirmSpec(t, firmId, fault);
    if s.response.Ok? {
      var refs := Referrers(t.vendors, firmId);
      if exists v | v in t.vendors :: t.vendors[v].firm == Some(firmId) {
        var v :| v in t.vendors && t.vendors[v].firm == Some(firmId);
        assert v in refs;
      }
    }
  }

  /** In a consistent store, deleting a firm (unless interrupted between its two
      writes) keeps the store consistent, and on success no vendor refers to the
      deleted firm any more. */
  lemma DeleteFirmPreservesValid(t: Tables, firmId: Id, fault: StoreFault)
    requires Valid(t)
    requires fault != FailsAt(2)
    ensures var s := DeleteFirmSpec(t, firmId, fault);
      && Valid(s.after)
      && (s.response.Ok? ==> Referrers(s.after.vendors, firmId) == {})
  {
    var s := DeleteFirmSpec(t, firmId, fault);
    if s.response.Ok? {
      var u := s.after;
      var refs := Referrers(t.vendors, firmId);
      forall v | v in u.vendors ensures u.vendors[v].firm != Some(firmId) {
        if u.vendors[v].firm == Some(firmId) {
          assert u.vendors[v] == t.vendors[v];
          assert v in refs;
          var w :| w in refs && u.vendors[w] == t.vendors[w].(firm := None);
          OneReferrer(t, firmId, v, w);
        }
      }
      assert Referrers(u.vendors, firmId) == {};
      forall v | v in u.vendors && u.vendors[v].firm.Some?
        ensures u.vendors[v].firm.value in u.firms && u.firms[u.vendors[v].firm.value].vendor == Some(v)
      {
        assert u.vendors[v] == t.vendors[v];
      }
      forall f | f in u.firms && u.firms[f].vendor.Some?
        ensures u.firms[f].vendor.value in u.vendors && u.vendors[u.firms[f].vendor.value].firm == Some(f)
      {
        var v := u.firms[f].vendor.value;
        assert t.vendors[v].firm == Some(f);
        assert u.vendors[v] == t.vendors[v];
      }
      assert ProductsOwned(u);
    }
  }

  /** Deleting a firm right after creating it restores every collection exactly,
      since the fresh id is referred to by the one vendor linked to it. */
  lemma AddFirmThenDelete(t: Tables, vendorId: Id, body: FirmBody, image: Option<string>,
                          fault: StoreFault, id: Id)
    requires Fresh(t, id)
    requires AddFirmSpec(t, vendorId, body, image, fault, id).response.Ok?
    ensures DeleteFirmSpec(AddFirmSpec(t, vendorId, body, image, fault, id).after, id, Healthy) == Step(Ok(()), t)
  {
    var u := AddFirmSpec(t, vendorId, body, image, fault, id).after;
    assert Referrers(u.vendors, id) == {vendorId};
    assert UnsetFirm(u.vendors, id) == t.vendors;
    assert u.firms - {id} == t.firms;
  }

  /** Deleting a firm frees its name: after a firm is created and deleted, another
      vendor without a firm can create a firm under the same name. */
  lemma FirmNameReusable(t: Tables, v1: Id, body1: FirmBody, image1: Option<string>, id1: Id,
                         v2: Id, body2: FirmBody, image2: Option<string>, id2: Id)
    requires Valid(t) && Fresh(t, id1)
    requires AddFirmSpec(t, v1, body1, image1, Healthy, id1).response.Ok?
    requires v2 in t.vendors && t.vendors[v2].firm.None?
    requires body2.firmName == body1.firmName && RequiredString(body2.area)
    ensures var t1 := AddFirmSpec(t, v1, body1, image1, Healthy, id1).after;
      var t2 := DeleteFirmSpec(t1, id1, Healthy).after;
      AddFirmSpec(t2, v2, body2, image2, Healthy, id2).response.Ok?
  {
    AddFirmThenDelete(t, v1, body1, image1, Healthy, id1);
  }
}
