/** The document store the controllers work against: three collections keyed by
    id, the store operators the controllers use (`updateOne` with `$unset` and
    `$pull`, `populate`), and the invariant that keeps the Vendor-Firm and
    Firm-Product references consistent. */
module Database {
  import opened Basics
  import opened FirmModel
  import opened ProductModel

  /** A Vendor document. Only its `firm` reference is read or written here;
      `account` stands for the rest of the document (name, email, password hash),
      which the firm and product handlers never touch. */
  datatype Vendor = Vendor(firm: Option<Id>, account: string)

  /** The three collections at one moment. */
  datatype Tables = Tables(
    vendors: map<Id, Vendor>,
    firms: map<Id, Firm>,
    products: map<Id, Product>)

  /** What a handler answered and the collections it left behind. */
  datatype Step<+T> = Step(response: Response<T>, after: Tables)

  /** A populated product: its id and its document. */
  datatype Entry = Entry(id: Id, product: Product)

  // ---------------------------------------------------------------------------
  // Fresh ids

  /** Every id that is a key of a collection or is referenced from a document. */
  function Mentioned(t: Tables): set<Id> {
    t.vendors.Keys + t.firms.Keys + t.products.Keys
    + (set v | v in t.vendors && t.vendors[v].firm.Some? :: t.vendors[v].firm.value)
    + (set f | f in t.firms && t.firms[f].vendor.Some? :: t.firms[f].vendor.value)
    + (set f, p | f in t.firms && p in t.firms[f].products :: p)
    + (set p, f | p in t.products && f in t.products[p].firm :: f)
  }

  /** `id` has never been handed out: no document has it and none refers to it.
      A new ObjectId has this property, since ObjectIds are never reused. */
  predicate Fresh(t: Tables, id: Id) {
    && id !in t.vendors && id !in t.firms && id !in t.products
    && (forall v | v in t.vendors :: t.vendors[v].firm != Some(id))
    && (forall f | f in t.firms :: t.firms[f].vendor != Some(id) && id !in t.firms[f].products)
    && (forall p | p in t.products :: id !in t.products[p].firm)
  }

  lemma UnmentionedIsFresh(t: Tables, id: Id)
    requires id !in Mentioned(t)
    ensures Fresh(t, id)
  {
    forall v | v in t.vendors && t.vendors[v].firm.Some?
      ensures t.vendors[v].firm.value != id
    {
      assert t.vendors[v].firm.value in Mentioned(t);
    }
    forall f | f in t.firms
      ensures t.firms[f].vendor != Some(id) && id !in t.firms[f].products
    {
      if t.firms[f].vendor.Some? {
        assert t.firms[f].vendor.value in Mentioned(t);
      }
      forall p | p in t.firms[f].products ensures p != id {
        assert p in Mentioned(t);
      }
    }
    forall p | p in t.products ensures id !in t.products[p].firm {
      forall f | f in t.products[p].firm ensures f != id {
        assert f in Mentioned(t);
      }
    }
  }

  // ---------------------------------------------------------------------------
  // Vendor.updateOne({ firm: firmId }, { $unset: { firm: "" } })

  /** The vendors whose `firm` equals `firmId`: the documents the filter matches. */
  function Referrers(vendors: map<Id, Vendor>, firmId: Id): set<Id> {
    set v | v in vendors && vendors[v].firm == Some(firmId)
  }

  /** `updateOne` with `$unset`: the first matching vendor in the collection's
      natural order (here: ascending id) loses its `firm` field; nothing happens
      when no vendor matches. */
  function UnsetFirm(vendors: map<Id, Vendor>, firmId: Id): (r: map<Id, Vendor>)
    ensures r.Keys == vendors.Keys
    ensures forall v | v in vendors ::
              r[v] == vendors[v] || (v in Referrers(vendors, firmId) && r[v] == vendors[v].(firm := None))
    ensures forall v, w | v in vendors && w in vendors && r[v] != vendors[v] && r[w] != vendors[w] :: v == w
    ensures Referrers(vendors, firmId) != {} ==>
              exists v | v in Referrers(vendors, firmId) :: r[v] == vendors[v].(firm := None)
  {
    var matches := Referrers(vendors, firmId);
    if matches == {} then vendors
    else
      var v := Least(matches);
      vendors[v := vendors[v].(firm := None)]
  }

  // ---------------------------------------------------------------------------
  // Firm.updateOne({ _id: product.firm }, { $pull: { products: productId } })

  /** `$pull` on an array: every occurrence of `x` goes, the rest keeps its order. */
  function Pull(s: seq<Id>, x: Id): (r: seq<Id>)
    ensures forall y :: y in r <==> y in s && y != x
    ensures |r| <= |s|
  {
    if s == [] then []
    else if s[0] == x then Pull(s[1..], x) else [s[0]] + Pull(s[1..], x)
  }

  /** How many of each value a pull leaves: none of `x`, every other value as often
      as before; so the array shrinks by exactly the occurrences of `x`. */
  lemma {:induction false} PullCounts(s: seq<Id>, x: Id)
    ensures multiset(Pull(s, x))[x] == 0
    ensures forall y | y != x :: multiset(Pull(s, x))[y] == multiset(s)[y]
    ensures |Pull(s, x)| == |s| - multiset(s)[x]
  {
    if s != [] {
      assert s == [s[0]] + s[1..];
      PullCounts(s[1..], x);
    }
  }

  /** Pulling a value that is absent leaves the array as it was. */
  lemma {:induction false} PullAbsent(s: seq<Id>, x: Id)
    requires x !in s
    ensures Pull(s, x) == s
  {
    if s != [] {
      PullAbsent(s[1..], x);
    }
  }

  /** Pulling distributes over concatenation, so the order of what stays is kept. */
  lemma {:induction false} PullConcat(a: seq<Id>, b: seq<Id>, x: Id)
    ensures Pull(a + b, x) == Pull(a, x) + Pull(b, x)
  {
    if a == [] {
      assert a + b == b;
    } else {
      assert (a + b)[0] == a[0] && (a + b)[1..] == a[1..] + b;
      PullConcat(a[1..], b, x);
    }
  }

  /** Pulling a value that was appended once to an array without it gives the array back. */
  lemma PullAppended(s: seq<Id>, x: Id)
    requires x !in s
    ensures Pull(s + [x], x) == s
  {
    PullConcat(s, [x], x);
    PullAbsent(s, x);
    assert Pull([x], x) == [];
  }

  /** The firms that the filter `{ _id: refs }` matches. Mongoose turns an array
      value into `$in`, so these are the stored firms whose id is in `refs`. */
  function FirmsIn(firms: map<Id, Firm>, refs: seq<Id>): set<Id> {
    set f | f in firms && f in refs
  }

  /** `updateOne` with `$pull`: the first matching firm (ascending id) loses every
      occurrence of `productId` from its `products`; nothing happens when no firm matches. */
  function PullProduct(firms: map<Id, Firm>, refs: seq<Id>, productId: Id): map<Id, Firm> {
    var matches := FirmsIn(firms, refs);
    if matches == {} then firms
    else
      var f := Least(matches);
      firms[f := firms[f].(products := Pull(firms[f].products, productId))]
  }

  /** `PullProduct` touches at most one firm, one that the filter matches, and
      only by pulling the id from its list; if any firm matches, one is pulled from. */
  lemma PullProductTouchesOneMatch(firms: map<Id, Firm>, refs: seq<Id>, productId: Id)
    ensures var r := PullProduct(firms, refs, productId);
      && r.Keys == firms.Keys
      && (forall f | f in firms ::
            r[f] == firms[f]
            || (f in FirmsIn(firms, refs) && r[f] == firms[f].(products := Pull(firms[f].products, productId))))
      && (forall f, g | f in firms && g in firms && r[f] != firms[f] && r[g] != firms[g] :: f == g)
      && (FirmsIn(firms, refs) != {} ==>
            exists f | f in FirmsIn(firms, refs) :: r[f] == firms[f].(products := Pull(firms[f].products, productId)))
  {
  }

  /** The pull changes nothing in a firm but its product list, so everything the
      invariant says about names, schema and the vendor links carries over. */
  lemma OnlyListsChangeOnPull(firms: map<Id, Firm>, refs: seq<Id>, productId: Id)
    ensures var r := PullProduct(firms, refs, productId);
      && r.Keys == firms.Keys
      && forall f | f in firms :: r[f] == firms[f].(products := r[f].products)
  {
  }

  /** Pulling with a one-firm filter: a firm lists a product afterwards exactly when
      it listed it before and it is not the pulled id in the named firm's list. */
  lemma PullOwnerMembers(firms: map<Id, Firm>, owner: Id, productId: Id)
    ensures var r := PullProduct(firms, [owner], productId);
      && r.Keys == firms.Keys
      && forall f, p | f in r :: p in r[f].products <==> p in firms[f].products && (f != owner || p != productId)
  {
    if owner in firms {
      PullFromOnlyOwner(firms, owner, productId);
    } else {
      assert FirmsIn(firms, [owner]) == {};
    }
  }

  /** When the filter names one stored firm, that firm is the one pulled from. */
  lemma PullFromOnlyOwner(firms: map<Id, Firm>, f: Id, productId: Id)
    requires f in firms
    ensures PullProduct(firms, [f], productId) == firms[f := firms[f].(products := Pull(firms[f].products, productId))]
  {
    assert FirmsIn(firms, [f]) == {f};
  }

  // ---------------------------------------------------------------------------
  // Firm.findById(firmId).populate("products")

  /** `populate` on a list of Product references: each id is replaced by its
      document, in list order; ids with no document are dropped. */
  function Populate(ids: seq<Id>, products: map<Id, Product>): (r: seq<Entry>)
    ensures |r| <= |ids|
    ensures forall k | 0 <= k < |r| :: r[k].id in ids && r[k].id in products && r[k].product == products[r[k].id]
    ensures (forall i | i in ids :: i in products) ==>
              |r| == |ids| && forall k | 0 <= k < |r| :: r[k].id == ids[k]
  {
    if ids == [] then []
    else
      var rest := Populate(ids[1..], products);
      assert forall i | i in ids[1..] :: i in ids;
      if ids[0] in products then [Entry(ids[0], products[ids[0]])] + rest else rest
  }

  /** Populating a concatenation populates each part in turn. */
  lemma {:induction false} PopulateConcat(a: seq<Id>, b: seq<Id>, products: map<Id, Product>)
    ensures Populate(a + b, products) == Populate(a, products) + Populate(b, products)
  {
    if a == [] {
      assert a + b == b;
    } else {
      assert (a + b)[1..] == a[1..] + b;
      PopulateConcat(a[1..], b, products);
    }
  }

  /** Storing a product under an id the list does not mention changes nothing the list populates to. */
  lemma {:induction false} PopulateUnlisted(ids: seq<Id>, products: map<Id, Product>, id: Id, p: Product)
    requires id !in ids
    ensures Populate(ids, products[id := p]) == Populate(ids, products)
  {
    if ids != [] {
      PopulateUnlisted(ids[1..], products, id, p);
    }
  }

  // ---------------------------------------------------------------------------
  // The aggregate's invariant

  /** Every stored document passes its schema's validation. */
  predicate SchemaValid(t: Tables) {
    && (forall f | f in t.firms :: FirmModel.SchemaOk(t.firms[f]))
    && (forall p | p in t.products :: ProductModel.SchemaOk(t.products[p]))
  }

  /** No two stored firms share a `firmName` (the unique index). */
  predicate NamesUnique(t: Tables) {
    forall f, g | f in t.firms && g in t.firms && f != g :: t.firms[f].firmName != t.firms[g].firmName
  }

  /** A vendor's `firm` refers to a stored firm whose `vendor` refers back to it. */
  predicate VendorsLinked(t: Tables) {
    forall v | v in t.vendors && t.vendors[v].firm.Some? ::
      t.vendors[v].firm.value in t.firms && t.firms[t.vendors[v].firm.value].vendor == Some(v)
  }

  /** A firm's `vendor` refers to a stored vendor whose `firm` refers back to it. */
  predicate FirmsOwned(t: Tables) {
    forall f | f in t.firms && t.firms[f].vendor.Some? ::
      t.firms[f].vendor.value in t.vendors && t.vendors[t.firms[f].vendor.value].firm == Some(f)
  }

  /** Every id in a firm's `products` names a stored product whose `firm` list is just that firm. */
  predicate ProductsListed(t: Tables) {
    forall f, p | f in t.firms && p in t.firms[f].products :: p in t.products && t.products[p].firm == [f]
  }

  /** A product refers to exactly one firm, and that firm, while it is stored, lists it.
      (Deleting a firm leaves its products behind, so the firm may be gone.) */
  predicate ProductsOwned(t: Tables) {
    forall p | p in t.products ::
      |t.products[p].firm| == 1
      && (t.products[p].firm[0] in t.firms ==> p in t.firms[t.products[p].firm[0]].products)
  }

  predicate Valid(t: Tables) {
    SchemaValid(t) && NamesUnique(t) && VendorsLinked(t) && FirmsOwned(t) && ProductsListed(t) && ProductsOwned(t)
  }

  /** In a consistent store at most one vendor refers to a given firm, so which
      match `updateOne` picks does not matter. */
  lemma OneReferrer(t: Tables, firmId: Id, v: Id, w: Id)
    requires VendorsLinked(t)
    requires v in Referrers(t.vendors, firmId) && w in Referrers(t.vendors, firmId)
    ensures v == w
  {
  }

  /** In a consistent store the only firm that lists a product is the one its `firm` names. */
  lemma OneLister(t: Tables, productId: Id, f: Id)
    requires ProductsListed(t) && ProductsOwned(t)
    requires productId in t.products && f in t.firms && productId in t.firms[f].products
    ensures t.products[productId].firm == [f]
  {
  }

  /** In a consistent store the `$pull` filter `{ _id: product.firm }` matches at
      most one firm, so which match `updateOne` picks never matters. */
  lemma OneMatchOnPull(t: Tables, productId: Id)
    requires ProductsOwned(t) && productId in t.products
    ensures |FirmsIn(t.firms, t.products[productId].firm)| <= 1
  {
    var owner := t.products[productId].firm[0];
    assert t.products[productId].firm == [owner];
    if owner in t.firms {
      assert FirmsIn(t.firms, t.products[productId].firm) == {owner};
    } else {
      assert FirmsIn(t.firms, t.products[productId].firm) == {};
    }
  }

  // ---------------------------------------------------------------------------
  // The store

  /** The three collections as mutable state; the controllers update them in place. */
  class Store {
    var vendors: map<Id, Vendor>
    var firms: map<Id, Firm>
    var products: map<Id, Product>

    /** A store whose registered vendors have not opened a firm yet: no firms, no
        products, and consistent from the start. */
    constructor (vendors: map<Id, Vendor>)
      requires forall v | v in vendors :: vendors[v].firm.None?
      ensures Snapshot() == Tables(vendors, map[], map[])
      ensures Valid(Snapshot())
    {
      this.vendors := vendors;
      firms := map[];
      products := map[];
    }

    /** The collections' current contents. */
    function Snapshot(): Tables
      reads this
    {
      Tables(vendors, firms, products)
    }

    /** A new ObjectId: any id the store has not handed out. */
    method FreshId() returns (id: Id)
      ensures Fresh(Snapshot(), id)
    {
      var used := Mentioned(Snapshot());
      assert Bound(used) !in used;
      id :| id !in used;
      UnmentionedIsFresh(Snapshot(), id);
    }
  }
}
