/** The Product document (models/Product.js): its fields and the validation
    that decides whether `save` accepts it. */
module ProductModel {
  import opened Basics

  /** A Product document. `productName` and `price` are required strings (the price
      is kept as text, not as a number); `image`, `bestSeller` and `description` are
      optional; `firm` is a list of Firm references. */
  datatype Product = Product(
    productName: Option<string>,
    price: Option<string>,
    category: seq<string>,
    image: Option<string>,
    bestSeller: Option<bool>,
    description: Option<string>,
    firm: seq<Id>)

  /** The values the `category` enum admits. */
  predicate AllowedCategory(c: string) {
    c == "veg" || c == "non-veg"
  }

  /** The schema's validators: both required strings are present and non-empty,
      and every category tag is one of the enum's values. */
  predicate SchemaOk(p: Product) {
    && RequiredString(p.productName)
    && RequiredString(p.price)
    && forall i | 0 <= i < |p.category| :: AllowedCategory(p.category[i])
  }

  /** One category tag outside the enum makes validation fail. */
  lemma CategoryOutsideEnumRefused(p: Product, i: nat)
    requires i < |p.category| && !AllowedCategory(p.category[i])
    ensures !SchemaOk(p)
  {
  }

  /** The optional fields and the firm list never decide validation. */
  lemma OptionalFieldsFree(p: Product, image: Option<string>, bestSeller: Option<bool>,
                           description: Option<string>, firm: seq<Id>)
    ensures SchemaOk(p) <==>
            SchemaOk(p.(image := image, bestSeller := bestSeller, description := description, firm := firm))
  {
  }
}
