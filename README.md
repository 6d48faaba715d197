# Vendor–Firm–Product reference bookkeeping, modelled in Dafny

This project models the part of a food-vendor marketplace backend that keeps
references consistent across three document collections:

- **Vendor**: a business operator. Its optional `firm` field points at its one Firm.
- **Firm**: a storefront. It has a name, an area, tag lists, an offer and an
  image. It also has an optional `vendor` back-reference and a `products` list.
- **Product**: an item on sale. It has a name, a price (kept as text),
  `veg`/`non-veg` tags and optional extras. Its `firm` list names its Firm.

The Express handlers do that bookkeeping with Mongoose. They are modelled as
methods over a `Store` class, which holds the three collections as maps from
id to document:

- `addFirm` checks the vendor, saves a new firm, then links the vendor to it.
- `deleteFirmById` unsets the `firm` field of the vendor that refers to the
  firm, then deletes the firm.
- `addProduct` saves a new product, then appends its id to the firm's list.
- `getProductByFirm` reads a firm's name and its populated product list.
- `deleteProductById` pulls the id from the owning firm's list, then deletes
  the product.

Each handler method is proved to have the effect of a specification function
over a `Tables` snapshot (`AddFirmSpec`, `DeleteFirmSpec`, `AddProductSpec`,
`DeleteProductSpec`). The lemmas about those functions state the guards, the
"nothing else changes" frames, the round trips and the consistency invariant
`Database.Valid`. That invariant says:

- every stored document passes its schema;
- firm names are unique;
- a vendor and its firm refer to each other;
- each id in a firm's `products` names a stored product whose `firm` list is
  exactly that firm;
- each product names one firm, and that firm lists the product while the firm
  is still stored.

Modules follow the source files:

- `Basics`: shared types.
- `FirmModel`: `models/Firm.js`.
- `ProductModel`: `models/Product.js`.
- `Database`: the store and the store operators the handlers use.
- `FirmController`: `controllers/firmController.js`.
- `ProductController`: `controllers/productControllers.js`.
- `Walkthrough`: how the handlers compose.

Choices made to pin down the store's behaviour:

- **Store failures.** Every handler takes a `StoreFault`. `FailsAt(k)` makes
  the handler's k-th awaited store call throw, and the handler answers
  `Internal`. Calls are counted from 0 in source order: the first lookup, then
  the first write, then the second write. This covers an unreachable store and
  an id that Mongoose cannot cast. It also covers a failure between the two
  writes of one handler, which the code does not roll back.
- **Fresh ids.** A new ObjectId is any id that no document has and no
  document refers to (`Database.Fresh`), because ObjectIds are never reused.
  `Store.FreshId` picks one without saying which.
- **Which document `updateOne` changes.** `updateOne` changes at most one
  matching document: the first in the collection's natural order. The model
  fixes that order as ascending id. In a consistent store at most one document
  matches, so the choice never matters (`OneReferrer` for the vendors,
  `OneMatchOnPull` for the firms).
- **Array filter in `deleteProductById`.** The filter `{ _id: product.firm }`
  gets an array. Mongoose turns an array there into `$in`, so the filter
  matches the stored firms named in the product's `firm` list (`FirmsIn`).
- **Validation.**
  - Mongoose's `required` on a String also rejects the empty string
    (`RequiredString`).
  - The `unique` index on `firmName` is checked only when a new firm is
    inserted. The re-save in `addProduct` does not change the name, but it
    does validate the whole document.
- **`if (!firm.products)` in `addProduct`.** A Mongoose array path always
  reads as an array (empty by default), so that branch never runs. An absent
  list is modelled as the empty list, and appending to it gives the
  one-element list.

Behaviour of the code that the model keeps as written:

- `getProductByFirm` does no id validation of its own. A malformed id fails
  the cast inside the query, and the handler answers 500. The model treats
  this as `FailsAt(0)`, which gives `Internal`.
- A firm's `products` is an ordered array that `push` can fill with
  duplicates, not a set, and a product's `firm` is an array too. `$pull`
  removes every occurrence.
- Deleting a firm leaves its products in place, still naming the deleted firm.
  `Database.ProductsOwned` therefore asks for the back-link only while the
  firm is stored.

## Model

| member | source | states |
|---|---|---|
| `FirmModel.OnlyNameAndAreaValidated` | models/Firm.js:3-33 | whether a firm passes validation depends only on `firmName` and `area`; `category` and `region` are lists of unrestricted strings; offer, image and both references are unchecked |
| `FirmModel.RequiredFieldsRefused` | models/Firm.js:4-12 | a firm whose `firmName` or `area` is absent or empty cannot be saved |
| `FirmModel.DuplicateNameRefused` | models/Firm.js:7 | a firm whose name a stored firm already has cannot be inserted |
| `ProductModel.CategoryOutsideEnumRefused` | models/Product.js:12-15 | one category tag other than `veg` or `non-veg` makes the save fail |
| `ProductModel.OptionalFieldsFree` | models/Product.js:16-28 | `image`, `bestSeller`, `description` and the `firm` list never decide whether a product can be saved |
| `Database.Store.FreshId` | controllers/firmController.js:37-45 | the id a new document receives is not a key of any collection and is not referenced by any document |
| `Database.UnsetFirm` | controllers/firmController.js:79 | `updateOne` with `$unset`: same vendor keys; at most one vendor changes, and only one whose `firm` was this firm, which loses `firm` and keeps everything else; if any vendor matched, one of them is cleared |
| `Database.OneReferrer` | controllers/firmController.js:79 | in a store whose vendor links are consistent, at most one vendor matches `{ firm: firmId }` |
| `Database.Pull` | controllers/productControllers.js:96 | `$pull`: a value occurs afterwards exactly when it occurred before and is not the pulled value; the array never grows |
| `Database.PullCounts` | controllers/productControllers.js:96 | the pulled value is gone, every other value keeps its multiplicity, and the length drops by exactly the number of removed occurrences |
| `Database.PullAbsent` | controllers/productControllers.js:96 | pulling a value that is not in the list leaves the list unchanged |
| `Database.PullConcat` | controllers/productControllers.js:96 | pulling distributes over concatenation, so the remaining values keep their order |
| `Database.PullAppended` | controllers/productControllers.js:96 | pulling a value that was appended once to a list without it returns the original list |
| `Database.PullProductTouchesOneMatch` | controllers/productControllers.js:94-97 | `updateOne` with `$pull` on `{ _id: product.firm }`: same firm keys; at most one firm changes, only one named in the filter, and only by pulling the id; if any firm matched, one is pulled from |
| `Database.PullOwnerMembers` | controllers/productControllers.js:94-97 | with a one-firm filter, a firm lists a product afterwards exactly when it listed it before, unless it is the named firm and the product is the pulled id |
| `Database.PullFromOnlyOwner` | controllers/productControllers.js:94-97 | when the filter names one stored firm, that firm is the one pulled from |
| `Database.OnlyListsChangeOnPull` | controllers/productControllers.js:94-97 | the pull changes no firm field except `products` |
| `Database.OneLister` | controllers/productControllers.js:94-96 | in a consistent store the only firm that lists a product is the one named in the product's `firm` list |
| `Database.OneMatchOnPull` | controllers/productControllers.js:94-96 | in a store where each product names exactly one firm, the filter `{ _id: product.firm }` matches at most one firm |
| `Database.Populate` | controllers/productControllers.js:68 | `populate`: every entry is a listed id with its stored document; when every listed id is stored, the entries follow the list one for one and in order |
| `Database.PopulateConcat` | controllers/productControllers.js:68 | populating a concatenation populates each part in turn |
| `Database.PopulateUnlisted` | controllers/productControllers.js:68 | storing a product under an id the list does not contain does not change the populated list |
| `FirmController.AddFirm` | controllers/firmController.js:19-65 | the handler draws a fresh id and has exactly the effect and answer of `AddFirmSpec`: the vendor lookup, the one-firm guard, the firm save, then the vendor save, with a store fault possible at each call |
| `FirmController.AddFirmUnknownVendor` | controllers/firmController.js:26-29 | an unknown vendor id gives NotFound, and no collection changes |
| `FirmController.AddFirmVendorTaken` | controllers/firmController.js:31-34 | a vendor whose `firm` is set gives Conflict: no firm is created and the vendor is unchanged |
| `FirmController.AddFirmRefused` | controllers/firmController.js:48-64 | when the firm save fails, whether from a store fault at that call, a missing or empty name or area, or a duplicate name, the answer is Internal with no change, so the vendor's `firm` stays unset |
| `FirmController.AddFirmSucceedsIff` | controllers/firmController.js:26-59 | `addFirm` succeeds if and only if: the store stays up, the vendor exists and has no firm, the name and area are present and non-empty, and the name is unused |
| `FirmController.AddFirmCreates` | controllers/firmController.js:21-59 | on success: the new firm is stored under the fresh id with the submitted attributes, the uploaded file name or none, `vendor` set to the vendor id, and no products; the vendor's `firm` is the new id and its other fields are kept; the answer reports that id and `firmName`; every other document is unchanged |
| `FirmController.AddFirmInterrupted` | controllers/firmController.js:48-52 | if the vendor save fails after the firm save, the answer is Internal and the new firm stays behind; its `vendor` points at a vendor whose `firm` does not point back |
| `FirmController.AddFirmPreservesValid` | controllers/firmController.js:31-52 | unless interrupted between its two writes, `addFirm` preserves the invariant: unique names, mutual vendor/firm links, and the product links |
| `FirmController.DeleteFirmById` | controllers/firmController.js:68-90 | the handler has exactly the effect and answer of `DeleteFirmSpec`: the firm lookup, the vendor `$unset`, then the firm delete |
| `FirmController.DeleteFirmUnknown` | controllers/firmController.js:73-76 | an unknown firm id gives NotFound, and no collection changes |
| `FirmController.DeleteFirmEffect` | controllers/firmController.js:78-82 | on success: the firm is removed; at most one vendor changes, one whose `firm` was this firm, and it loses only that field; if any vendor referred to the firm, one is cleared; products are untouched, including those that still name the deleted firm |
| `FirmController.DeleteFirmPreservesValid` | controllers/firmController.js:78-82 | in a consistent store, unless interrupted between its two writes, `deleteFirmById` preserves the invariant, and after success no vendor refers to the deleted firm |
| `FirmController.AddFirmThenDelete` | controllers/firmController.js:37-82 | deleting a firm right after creating it restores all three collections exactly |
| `FirmController.FirmNameReusable` | controllers/firmController.js:79-82 | after a firm is created and deleted, another vendor without a firm can create a firm with the same name |
| `ProductController.AddProduct` | controllers/productControllers.js:19-62 | the handler draws a fresh id and has exactly the effect and answer of `AddProductSpec`: the firm lookup, the product save, the append, then the firm re-save |
| `ProductController.AddProductUnknownFirm` | controllers/productControllers.js:26-29 | an unknown firm id gives NotFound, and no product is created |
| `ProductController.AddProductRefused` | controllers/productControllers.js:32-43 | a product with a missing or empty name or price, or a category tag outside `veg`/`non-veg`, gives Internal with no change |
| `ProductController.AddProductSucceedsIff` | controllers/productControllers.js:26-50 | `addProduct` succeeds if and only if: the store stays up, the firm exists and validates, and the new product validates |
| `ProductController.AddProductCreates` | controllers/productControllers.js:21-50 | on success: the new product is stored under the fresh id with the submitted fields, the uploaded file name or none, and `firm == [firmId]`; the firm's `products` is its old list with the id appended at the end; the answer carries the product; every other firm, product and vendor is unchanged |
| `ProductController.AddProductInterrupted` | controllers/productControllers.js:43-50 | if the firm save fails after the product save, the answer is Internal and the product stays behind, naming a firm that does not list it |
| `ProductController.AddProductPreservesValid` | controllers/productControllers.js:32-50 | unless interrupted between its two writes, `addProduct` preserves the invariant |
| `ProductController.ListingAfterAddProduct` | controllers/productControllers.js:49 | after a successful `addProduct` the firm's populated listing is its old listing followed by the new product |
| `ProductController.GetProductByFirm` | controllers/productControllers.js:65-80 | a read that changes nothing; Internal exactly on a store fault; NotFound exactly when the firm is unknown; otherwise the firm's `firmName` and the populated product list |
| `ProductController.ListingOfConsistentFirm` | controllers/productControllers.js:68-75 | in a consistent store the listing holds one entry per id in the firm's list, in list order, and every listed product names that firm |
| `ProductController.DeleteProductById` | controllers/productControllers.js:83-107 | the handler has exactly the effect and answer of `DeleteProductSpec`: the product lookup, the `$pull` on the owning firm, then the product delete |
| `ProductController.DeleteProductUnknown` | controllers/productControllers.js:88-91 | an unknown product id gives NotFound, and no collection changes |
| `ProductController.DeleteProductEffect` | controllers/productControllers.js:93-100 | on success: the product is removed; vendors and other products are unchanged; at most one firm changes, one named in the product's `firm` list, and it loses every occurrence of the id; if any stored firm is named, one of them is pulled from |
| `ProductController.DeleteProductPreservesValid` | controllers/productControllers.js:93-100 | in a consistent store, unless interrupted between its two writes, `deleteProductById` preserves the invariant, and after success no firm lists the id |
| `ProductController.UnlistedAfterDelete` | controllers/productControllers.js:94-100 | after the pull and the delete, each firm list holds only stored products that name that firm, every product is still listed by its stored firm, and no list holds the deleted id |
| `ProductController.AddProductThenDelete` | controllers/productControllers.js:43-100 | deleting a product right after creating it restores all three collections exactly |
| `ProductController.DeleteProductTwice` | controllers/productControllers.js:88-91 | a second delete of the same product gives NotFound and changes nothing |
| `Walkthrough.FirmProductLifecycle` | controllers/productControllers.js:43-100 | after creating a firm and adding a product, the firm lists exactly that product; deleting the product restores the state from before it was added, and the firm still exists with an empty listing |

## Left out

- HTTP status codes, the JSON envelope and `console.error` logging. Each
  answer is one of NotFound (404), Conflict (400), Internal (500) or Ok.
- The multer disk-storage setup (controllers/firmController.js:7-16 and
  controllers/productControllers.js:7-16). The uploaded file's name is an
  input to the handlers.
- Server start-up, the database connection, middleware, static file serving
  and route mounting (index.js, routes/vendorRoutes.js). These are I/O and
  wiring.
- models/Vendor.js and the vendor controller are not part of this model. A
  vendor is a `firm` reference plus an opaque `account` field.
- Mongoose's casting of request values: the strings `"true"`/`"false"` for
  `bestSeller`, numbers for `price`, and malformed ids. The body fields are
  modelled as already typed. A cast failure is modelled only as a store fault,
  which gives `Internal`.
- Concurrent requests. The code has no locking or transactions, and the model
  is sequential. Non-atomic paired writes are covered only as one failing
  store call (`FailsAt(k)`).
- How ObjectIds are generated, beyond being fresh; the ordering of populate's
  internal query.
- UnsetFirm: its contract does not say which matching vendor is cleared. The
  body picks the least id, standing in for MongoDB's natural order, which the
  model does not represent.
- PullProductTouchesOneMatch: it does not say which matching firm is pulled
  from. The body picks the least id, for the same reason.
