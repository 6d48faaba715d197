/** The Firm document (models/Firm.js): its fields and the validation that
    decides whether `save` accepts it. */
module FirmModel {
  import opened Basics

  /** A Firm document. `firmName` and `area` are required strings; `category` and
      `region` are lists of unrestricted strings (a missing list reads as empty);
      `vendor` is one optional Vendor reference while `products` is a list of
      Product references. */
  datatype Firm = Firm(
    firmName: Option<string>,
    area: Option<string>,
    category: seq<string>,
    region: seq<string>,
    offer: Option<string>,
    image: Option<string>,
    vendor: Option<Id>,
    products: seq<Id>)

  /** The schema's validators: both required strings are present and non-empty.
      Nothing is demanded of the tag lists, the offer, the image or the references. */
  predicate SchemaOk(f: Firm) {
    RequiredString(f.firmName) && RequiredString(f.area)
  }

  /** No stored firm already carries `name` (the unique index on `firmName`). */
  predicate NameFree(firms: map<Id, Firm>, name: Option<string>) {
    forall g | g in firms :: firms[g].firmName != name
  }

  /** Inserting `f` as a new document succeeds: it passes validation and its name
      does not collide with a stored one. */
  predicate Insertable(firms: map<Id, Firm>, f: Firm) {
    SchemaOk(f) && NameFree(firms, f.firmName)
  }

  /** Only the two required strings decide validation: the tag lists, the offer,
      the image and both references may hold anything. */
  lemma OnlyNameAndAreaValidated(f: Firm, g: Firm)
    requires f.firmName == g.firmName && f.area == g.area
    ensures SchemaOk(f) <==> SchemaOk(g)
  {
  }

  /** A firm whose name or area is absent or empty is refused. */
  lemma RequiredFieldsRefused(f: Firm)
    requires !RequiredString(f.firmName) || !RequiredString(f.area)
    ensures forall firms: map<Id, Firm> :: !Insertable(firms, f)
  {
  }

  /** A name that a stored firm already carries is refused, whatever the rest of the document. */
  lemma DuplicateNameRefused(firms: map<Id, Firm>, g: Id, f: Firm)
    requires g in firms && firms[g].firmName == f.firmName
    ensures !Insertable(firms, f)
  {
  }
}
