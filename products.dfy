/** The product collection and its controller (src/controllers/productController.js) over the
    schema of src/models/Product.js. The image host, `slugify`, `populate` joins and HTTP
    response shaping are outside this model. */
module Products {
  import opened Common
  import opened Slug
  import opened Decimal

  /** A stored product; `slug` is unique across the collection (Product.js:7). */
  datatype Product = Product(
    name: string, slug: string, price: real, category: string,
    description: Option<string>, imageUrl: string, creator: ObjectId)

  /** The raw `price` field: a string from a multipart form or a JSON string, or a JSON number. */
  datatype PriceField = PriceText(text: string) | PriceNumber(number: real)

  /** The body fields of a create request, and whether a file was attached. */
  datatype CreateRequest = CreateRequest(
    name: Option<string>, price: Option<PriceField>, category: Option<string>,
    description: Option<string>, imageUrl: Option<string>, hasFile: bool)

  /** 400 for missing fields, 500 when the image upload failed or the price does not cast to a
      number on save, or 201 with the new product. */
  datatype CreateResult = MissingFields | UploadFailed | PriceCastFailed | Created(id: ObjectId, product: Product)

  /** 404, 403 or 200 from `deleteProduct`. */
  datatype DeleteResult = ProductNotFound | NotOwner | Deleted

  /** A text field JavaScript treats as false: absent or empty. */
  predicate FalsyText(f: Option<string>) { f.None? || f.value == "" }

  /** A price field JavaScript treats as false: absent, the empty string or the number zero.
      The string "0" is not false. */
  predicate FalsyPrice(f: Option<PriceField>)
  {
    f.None? || f.value == PriceText("") || f.value == PriceNumber(0.0)
  }

  /** Mongoose's cast of the price to `Number` on save; `parseNumber` is JavaScript's reading of
      a numeric string, none when the string is not a number. */
  function CastPrice(f: PriceField, parseNumber: string -> Option<real>): (r: Option<real>)
    ensures f.PriceNumber? ==> r == Some(f.number)
    ensures f.PriceText? ==> r == parseNumber(f.text)
  {
    match f
    case PriceNumber(n) => Some(n)
    case PriceText(t) => parseNumber(t)
  }

  /** 2^53: every integer up to this one is a double, so `Number` reads its digits exactly. */
  const ExactIntegerBound: nat := 0x20_0000_0000_0000

  /** The string reader agrees with JavaScript's `Number` on plain decimal digit strings whose
      value is exactly representable as a double; longer strings are rounded by `Number` and
      are left unconstrained. */
  ghost predicate ReadsDigits(parseNumber: string -> Option<real>)
  {
    forall t :: t != "" && IsDigits(t) && DecimalValue(t) <= ExactIntegerBound ==>
      parseNumber(t) == Some(DecimalValue(t) as real)
  }

  /** A price sent as a string of decimal digits denoting at most 2^53 is stored as the number
      those digits denote; a numeric price is stored unchanged. */
  lemma DigitTextPriceCast(f: PriceField, parseNumber: string -> Option<real>)
    requires ReadsDigits(parseNumber)
    ensures f.PriceNumber? ==> CastPrice(f, parseNumber) == Some(f.number)
    ensures f.PriceText? && f.text != "" && IsDigits(f.text) && DecimalValue(f.text) <= ExactIntegerBound ==>
      CastPrice(f, parseNumber) == Some(DecimalValue(f.text) as real)
  {
  }

  /** A file upload whose price is the text "0" passes the required-field guard and is stored
      with price 0. */
  lemma ZeroTextPriceAccepted(req: CreateRequest, parseNumber: string -> Option<real>)
    requires req.price == Some(PriceText("0")) && ReadsDigits(parseNumber)
    ensures FalsyPrice(req.price) == false
    ensures CastPrice(req.price.value, parseNumber) == Some(0.0)
  {
    assert IsDigits("0") && DecimalValue("0") == 0;
    DigitTextPriceCast(req.price.value, parseNumber);
  }

  /** The guard `!name || !price || !category`. */
  predicate MissingRequired(req: CreateRequest)
  {
    FalsyText(req.name) || FalsyPrice(req.price) || FalsyText(req.category)
  }

  /** An upload happens when a file was attached or a non-empty `imageUrl` was sent. */
  predicate NeedsUpload(req: CreateRequest)
  {
    req.hasFile || !FalsyText(req.imageUrl)
  }

  /** The image URL stored with a new product; `hosted` is the URL the image host returned. */
  function FinalImageUrl(req: CreateRequest, hosted: string): (url: string)
    ensures !NeedsUpload(req) ==> url == ""
    ensures NeedsUpload(req) ==> url == hosted
  {
    if req.hasFile then hosted
    else if !FalsyText(req.imageUrl) then hosted
    else ""
  }

  /** The set of slugs currently stored, which the slug hook probes. */
  function SlugSet(ps: map<ObjectId, Product>): (r: set<string>)
    ensures forall id :: id in ps ==> ps[id].slug in r
    ensures forall s :: s in r ==> exists id :: id in ps && ps[id].slug == s
  {
    set id | id in ps :: ps[id].slug
  }

  /** No two stored products share a slug. */
  ghost predicate SlugsUnique(ps: map<ObjectId, Product>)
  {
    forall i, j :: i in ps && j in ps && i != j ==> ps[i].slug != ps[j].slug
  }

  /** `getMyProducts`: the products whose creator is the caller. */
  function MyProducts(ps: map<ObjectId, Product>, caller: ObjectId): (r: map<ObjectId, Product>)
    ensures forall id :: id in r <==> id in ps && ps[id].creator == caller
    ensures forall id :: id in r ==> r[id] == ps[id]
  {
    map id | id in ps && ps[id].creator == caller :: ps[id]
  }

  /** What `deleteMany({creator: caller})` leaves: every product of someone else. */
  function OthersProducts(ps: map<ObjectId, Product>, caller: ObjectId): (r: map<ObjectId, Product>)
    ensures forall id :: id in r <==> id in ps && ps[id].creator != caller
    ensures forall id :: id in r ==> r[id] == ps[id]
  {
    map id | id in ps && ps[id].creator != caller :: ps[id]
  }

  /** `getProductBySlug`: the id of the product with that slug, or none (404). `findOne` returns
      the first match; the unique index on `slug` (Product.js:7) makes that match the only one,
      which is what `SlugsUnique` states and what lets the choice below be deterministic. */
  function ProductBySlug(ps: map<ObjectId, Product>, slug: string): (r: Option<ObjectId>)
    requires SlugsUnique(ps)
    ensures r.Some? <==> slug in SlugSet(ps)
    ensures r.Some? ==> r.value in ps && ps[r.value].slug == slug
  {
    if exists id :: id in ps && ps[id].slug == slug then
      var id :| id in ps && ps[id].slug == slug;
      Some(id)
    else
      None
  }

  /** The caller's products and the rest split the collection; their sizes add up. */
  lemma CreatorPartition(ps: map<ObjectId, Product>, caller: ObjectId)
    ensures MyProducts(ps, caller).Keys !! OthersProducts(ps, caller).Keys
    ensures MyProducts(ps, caller).Keys + OthersProducts(ps, caller).Keys == ps.Keys
    ensures |MyProducts(ps, caller)| + |OthersProducts(ps, caller)| == |ps|
  {
  }

  /** Nothing of the caller's is left after `deleteAllMyProducts`, and nobody else's was lost. */
  lemma DeleteAllLeavesNoneOfMine(ps: map<ObjectId, Product>, caller: ObjectId, other: ObjectId)
    requires other != caller
    ensures MyProducts(OthersProducts(ps, caller), caller) == map[]
    ensures MyProducts(OthersProducts(ps, caller), other) == MyProducts(ps, other)
  {
  }

  /** Storing a product whose slug the hook allocated keeps slugs unique, and looking the new
      slug up finds exactly that product. */
  lemma InsertKeepsSlugsUnique(ps: map<ObjectId, Product>, id: ObjectId, p: Product, base: string)
    requires SlugsUnique(ps) && id !in ps
    requires p.slug == AllocatedSlug(base, SlugSet(ps))
    ensures SlugsUnique(ps[id := p])
    ensures ProductBySlug(ps[id := p], p.slug) == Some(id)
  {
    var ps' := ps[id := p];
    assert p.slug !in SlugSet(ps);
    assert SlugsUnique(ps');
    assert id in ps' && ps'[id].slug == p.slug;
    assert p.slug in SlugSet(ps');
  }

  /** Deleting a product frees its slug: when it was `base-k` and `base`, ..., `base-(k-1)` are
      all still stored, the next product with base `base` gets it again, so gaps are refilled.
      (With k = 0 this is the deleted slug going back to its own base.) */
  lemma SlugReusableAfterDelete(ps: map<ObjectId, Product>, id: ObjectId, base: string, k: nat)
    requires SlugsUnique(ps) && id in ps
    requires ps[id].slug == Candidate(base, k) && Probed(base, k) <= SlugSet(ps - {id})
    ensures ps[id].slug !in SlugSet(ps - {id})
    ensures AllocatedSlug(base, SlugSet(ps - {id})) == ps[id].slug
  {
  }

  /** The product collection. */
  class ProductStore {
    var products: map<ObjectId, Product>
    var nextId: ObjectId

    ghost predicate Valid()
      reads this
    {
      && SlugsUnique(products)
      && forall id :: id in products ==> id < nextId
    }

    constructor ()
      ensures Valid() && products == map[]
    {
      products := map[];
      nextId := 0;
    }

    /** `createProduct` for the authenticated `caller`. `hosted` is what the image host returned
        for an upload (none when it failed); on save the price is cast to a number (a failed cast
        is a 500) and the `pre("save")` hook picks the slug. */
    method CreateProduct(caller: ObjectId, req: CreateRequest, slugify: string -> string,
                         parseNumber: string -> Option<real>, hosted: Option<string>)
      returns (r: CreateResult)
      requires Valid()
      requires ReadsDigits(parseNumber)
      modifies this
      ensures Valid()
      ensures r.MissingFields? <==> MissingRequired(req)
      ensures r.UploadFailed? <==> !MissingRequired(req) && NeedsUpload(req) && hosted.None?
      ensures r.PriceCastFailed? <==>
        !MissingRequired(req) && !(NeedsUpload(req) && hosted.None?) && CastPrice(req.price.value, parseNumber).None?
      ensures !r.Created? ==> products == old(products) && nextId == old(nextId)
      ensures r.Created? ==>
        && r.id == old(nextId) && r.id !in old(products) && nextId == old(nextId) + 1
        && products == old(products)[r.id := r.product]
        && r.product.creator == caller
        && r.product.name == req.name.value && Some(r.product.price) == CastPrice(req.price.value, parseNumber)
        && r.product.category == req.category.value && r.product.description == req.description
        && r.product.imageUrl == (if NeedsUpload(req) then hosted.value else "")
        && r.product.slug == AllocatedSlug(slugify(req.name.value), SlugSet(old(products)))
        && r.product.slug !in SlugSet(old(products))
    {
      if MissingRequired(req) {
        return MissingFields;
      }
      if NeedsUpload(req) && hosted.None? {
        return UploadFailed;
      }
      var finalImageUrl := FinalImageUrl(req, if hosted.Some? then hosted.value else "");
      var price := CastPrice(req.price.value, parseNumber);
      if price.None? {
        return PriceCastFailed;
      }
      var slug := PreSaveSlug(true, req.name.value, slugify, None, SlugSet(products));
      var product := Product(req.name.value, slug.value, price.value, req.category.value,
                             req.description, finalImageUrl, caller);
      var id := nextId;
      InsertKeepsSlugsUnique(products, id, product, slugify(req.name.value));
      products := products[id := product];
      nextId := nextId + 1;
      r := Created(id, product);
    }

    /** `deleteProduct`: existence first, then ownership, then removal. */
    method DeleteProduct(caller: ObjectId, id: ObjectId) returns (r: DeleteResult)
      requires Valid()
      modifies this
      ensures Valid() && nextId == old(nextId)
      ensures r == ProductNotFound <==> id !in old(products)
      ensures r == NotOwner <==> id in old(products) && old(products)[id].creator != caller
      ensures r != Deleted ==> products == old(products)
      ensures r == Deleted ==> products == old(products) - {id}
    {
      if id !in products {
        return ProductNotFound;
      }
      if products[id].creator != caller {
        return NotOwner;
      }
      products := products - {id};
      r := Deleted;
    }

    /** `deleteAllMyProducts`: removes exactly the caller's products and reports how many. */
    method DeleteAllMyProducts(caller: ObjectId) returns (deletedCount: nat)
      requires Valid()
      modifies this
      ensures Valid() && nextId == old(nextId)
      ensures products == OthersProducts(old(products), caller)
      ensures deletedCount == |MyProducts(old(products), caller)|
      ensures deletedCount == |old(products)| - |products|
    {
      CreatorPartition(products, caller);
      deletedCount := |MyProducts(products, caller)|;
      products := OthersProducts(products, caller);
    }
  }
}
