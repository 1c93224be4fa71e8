/** The request bodies the service receives once validation has passed: the
    field rules of `CreateProductDto`, and the update body, in which every
    field is optional. The numeric fields are JavaScript numbers (`real`);
    `images` is the optional list of image URLs the service reads from the
    body besides the declared fields. */
module ProductDto {
  import opened Wrappers

  const MinTitleLength: nat := 6
  const Genders: set<string> := {"men", "women", "kid", "unisex"}

  datatype CreateProductDto = CreateProductDto(
    title: string,
    price: Option<real>,
    description: Option<string>,
    slug: Option<string>,
    stock: Option<real>,
    sizes: Option<seq<string>>,
    gender: string,
    tags: Option<seq<string>>,
    images: Option<seq<string>>)

  datatype UpdateProductDto = UpdateProductDto(
    title: Option<string>,
    price: Option<real>,
    description: Option<string>,
    slug: Option<string>,
    stock: Option<real>,
    sizes: Option<seq<string>>,
    gender: Option<string>,
    tags: Option<seq<string>>,
    images: Option<seq<string>>)

  predicate IsInteger(x: real) {
    x.Floor as real == x
  }

  /** `title`: a string of at least six characters. */
  predicate TitleRule(title: string) {
    |title| >= MinTitleLength
  }

  /** `price`: optional; when given, strictly positive. */
  predicate PriceRule(price: Option<real>) {
    price.Some? ==> price.value > 0.0
  }

  /** `stock`: optional; when given, a strictly positive integer. */
  predicate StockRule(stock: Option<real>) {
    stock.Some? ==> IsInteger(stock.value) && stock.value > 0.0
  }

  /** `gender`: one of the four listed values. */
  predicate GenderRule(gender: string) {
    gender in Genders
  }

  /** Every rule of `CreateProductDto`; `description`, `slug`, `sizes` and
      `tags` carry only their types. */
  predicate IsValid(dto: CreateProductDto) {
    TitleRule(dto.title) && PriceRule(dto.price) && StockRule(dto.stock) && GenderRule(dto.gender)
  }

  /** The update body: the same rules on each field that is present. */
  predicate IsValidPatch(patch: UpdateProductDto) {
    && (patch.title.Some? ==> TitleRule(patch.title.value))
    && PriceRule(patch.price)
    && StockRule(patch.stock)
    && (patch.gender.Some? ==> GenderRule(patch.gender.value))
  }

  /** The whole-number value of a valid `stock`. */
  function StockCount(stock: Option<real>): (r: Option<int>)
    requires StockRule(stock)
    ensures r.None? <==> stock.None?
    ensures r.Some? ==> r.value > 0 && r.value as real == stock.value
  {
    if stock.None? then None else Some(stock.value.Floor)
  }

  /** The column defaults (price 0, stock 0) are not values a caller may send. */
  lemma DefaultsAreRefused()
    ensures !PriceRule(Some(0.0)) && !StockRule(Some(0.0))
  {
  }
}
