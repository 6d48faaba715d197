/** How the handlers compose: a vendor opens a firm, adds a product, lists it,
    deletes it, and lists the firm again. */
module Walkthrough {
  import opened Basics
  import opened Database
  import opened FirmController
  import opened ProductController

  /** After `addFirm` and `addProduct`, the firm's listing is exactly the new
      product; after `deleteProductById` the firm is still there and its listing is
      empty (not NotFound), and the collections are as they were after `addFirm`. */
  lemma FirmProductLifecycle(t: Tables, vendorId: Id, firmBody: FirmBody, firmImage: Option<string>, firmId: Id,
                             productBody: ProductBody, productImage: Option<string>, productId: Id)
    requires Fresh(t, firmId)
    requires AddFirmSpec(t, vendorId, firmBody, firmImage, Healthy, firmId).response.Ok?
    requires var t1 := AddFirmSpec(t, vendorId, firmBody, firmImage, Healthy, firmId).after;
      Fresh(t1, productId) && AddProductSpec(t1, firmId, productBody, productImage, Healthy, productId).response.Ok?
    ensures var t1 := AddFirmSpec(t, vendorId, firmBody, firmImage, Healthy, firmId).after;
      var t2 := AddProductSpec(t1, firmId, productBody, productImage, Healthy, productId).after;
      var t3 := DeleteProductSpec(t2, productId, Healthy).after;
      && Populate(t2.firms[firmId].products, t2.products)
           == [Entry(productId, NewProduct(productBody, productImage, firmId))]
      && t3 == t1
      && firmId in t3.firms && Populate(t3.firms[firmId].products, t3.products) == []
  {
    var t1 := AddFirmSpec(t, vendorId, firmBody, firmImage, Healthy, firmId).after;
    assert t1.firms[firmId].products == [];
    ListingAfterAddProduct(t1, firmId, productBody, productImage, Healthy, productId);
    AddProductThenDelete(t1, firmId, productBody, productImage, Healthy, productId);
  }
}
