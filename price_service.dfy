/** The product-price service: price rows read from MySQL under a delay
    injector, validated by pydantic, and each handler's outcome mapped to an
    HTTP reply. */
module PriceService {
  import opened Outcomes
  import Chaos

  /** The `value` column as the MySQL driver hands it over. */
  datatype RawValue =
    | IntValue(i: int)           // a Python int
    | FloatValue(x: real)        // a Python float
    | OtherNumeric(x: real)      // neither, but pydantic reads it as the float x (a Decimal, the text "9.99")
    | NonNumeric(repr: string)   // a value pydantic cannot read as a float (None, the text "N/A")

  /** A row of `product_price` as a dict cursor returns it. */
  datatype PriceRow = PriceRow(product_id: string, currency: string, value: RawValue)

  datatype ProductPrice = ProductPrice(product_id: string, currency: string, value: real)

  const NO_PRODUCTS := "No products found"
  const PRODUCT_NOT_FOUND := "Product not found"

  predicate IsIntOrFloat(v: RawValue) {
    v.IntValue? || v.FloatValue?
  }

  /** `ProductPrice.convert_non_compatible_to_zero`: an int or a float is kept,
      anything else becomes 0.0. */
  function ConvertNonCompatibleToZero(v: RawValue): (r: RawValue)
    ensures IsIntOrFloat(r)
    ensures IsIntOrFloat(v) ==> r == v
    ensures !IsIntOrFloat(v) ==> r == FloatValue(0.0)
  {
    if IsIntOrFloat(v) then v else FloatValue(0.0)
  }

  /** The number an int or float stands for. */
  function NumberOf(v: RawValue): (x: real)
    requires IsIntOrFloat(v)
    ensures v.IntValue? ==> x == v.i as real
    ensures v.FloatValue? ==> x == v.x
  {
    if v.IntValue? then v.i as real else v.x
  }

  /** pydantic's own (lax) validation of a `float` field. */
  function CoerceFloat(v: RawValue): (r: Outcome<real>)
    ensures r.Raised? <==> v.NonNumeric?
    ensures r.Raised? ==> r.error == ValidationError("ProductPrice")
    ensures IsIntOrFloat(v) ==> r == Returned(NumberOf(v))
  {
    match v
    case IntValue(i) => Returned(i as real)
    case FloatValue(x) => Returned(x)
    case OtherNumeric(x) => Returned(x)
    case NonNumeric(_) => Raised(ValidationError("ProductPrice"))
  }

  /** The field `value` as written: `field_validator` defaults to an "after"
      validator, so it sees only the float pydantic's validation produced. It
      therefore never changes that result, and a value pydantic rejects raises
      before the validator could turn it into 0.0. */
  function ValidateValue(v: RawValue): (r: Outcome<real>)
    ensures r == CoerceFloat(v)
    ensures v.NonNumeric? ==> r == Raised(ValidationError("ProductPrice"))
  {
    match CoerceFloat(v)
    case Raised(e) => Raised(e)
    case Returned(x) => Returned(NumberOf(ConvertNonCompatibleToZero(FloatValue(x))))
  }

  /** The field `value` as evidently intended: a number is kept and anything
      that is not a number becomes 0.0, never an error. */
  function IntendedValue(v: RawValue): (r: real)
    ensures v.NonNumeric? ==> r == 0.0
    ensures !v.NonNumeric? ==> ValidateValue(v) == Returned(r)
  {
    match CoerceFloat(v)
    case Returned(x) => x
    case Raised(_) => 0.0
  }

  /** `ProductPrice(**row)`. */
  function DecodePrice(row: PriceRow): (r: Outcome<ProductPrice>)
    ensures r.Raised? <==> ValidateValue(row.value).Raised?
    ensures r.Returned? ==> r.value == ProductPrice(row.product_id, row.currency, ValidateValue(row.value).value)
  {
    match ValidateValue(row.value)
    case Raised(e) => Raised(e)
    case Returned(x) => Returned(ProductPrice(row.product_id, row.currency, x))
  }

  /** `ProductPrice(**row)` with the intended validator: it never fails. */
  function DecodePriceIntended(row: PriceRow): (p: ProductPrice)
    ensures p.product_id == row.product_id && p.currency == row.currency
    ensures row.value.NonNumeric? ==> p.value == 0.0
    ensures DecodePrice(row).Returned? ==> DecodePrice(row).value == p
  {
    ProductPrice(row.product_id, row.currency, IntendedValue(row.value))
  }

  /** A price stored as the text "N/A": the code as written raises a validation
      error (so the handler answers 500), where the intended validator yields 0.0. */
  lemma NonNumericValueCounterexample(id: string, currency: string, draw: Draw)
    ensures GetProductPrice(Returned(Some(PriceRow(id, currency, NonNumeric("N/A")))), draw, Chaos.DelaySettings(false, 0.0, 0)).value
            == Reply(INTERNAL_SERVER_ERROR, Message("validation error for ProductPrice"))
    ensures DecodePriceIntended(PriceRow(id, currency, NonNumeric("N/A"))) == ProductPrice(id, currency, 0.0)
  {
    assert Str(ValidationError("ProductPrice")) == "validation error for ProductPrice";
  }

  /** `[ProductPrice(**row) for row in rows]`: the first row that fails validation raises. */
  function DecodeAll(rows: seq<PriceRow>): (r: Outcome<seq<ProductPrice>>)
    ensures r.Returned? <==> forall i :: 0 <= i < |rows| ==> DecodePrice(rows[i]).Returned?
    ensures r.Returned? ==> |r.value| == |rows|
    ensures r.Returned? ==> forall i :: 0 <= i < |rows| ==> DecodePrice(rows[i]) == Returned(r.value[i])
    ensures r.Raised? ==> r.error == ValidationError("ProductPrice")
  {
    if rows == [] then Returned([])
    else match DecodePrice(rows[0])
      case Raised(e) => Raised(e)
      case Returned(p) =>
        match DecodeAll(rows[1..])
        case Raised(e) => Raised(e)
        case Returned(rest) => Returned([p] + rest)
  }

  /** The reply of `get_product_price` once the `with` block has been left with `found`
      (the `fetchone` row, `None`, or the exception raised). */
  function ItemReply(found: Outcome<Option<PriceRow>>): (r: Reply<ProductPrice>)
    ensures found.Raised? ==> r == Reply(INTERNAL_SERVER_ERROR, Message(Str(found.error)))
    ensures found == Returned(None) ==> r == Reply(NOT_FOUND, Message(PRODUCT_NOT_FOUND))
    ensures r.status == OK <==> found.Returned? && found.value.Some? && DecodePrice(found.value.value).Returned?
    ensures r.status == OK ==> r.body == Data(DecodePrice(found.value.value).value)
    // a row that fails validation raises inside the `try` as well
    ensures found.Returned? && found.value.Some? && DecodePrice(found.value.value).Raised? ==>
              r == Reply(INTERNAL_SERVER_ERROR, Message(Str(DecodePrice(found.value.value).error)))
    ensures r.status in {OK, NOT_FOUND, INTERNAL_SERVER_ERROR}
  {
    match found
    case Raised(e) => Reply(INTERNAL_SERVER_ERROR, Message(Str(e)))
    case Returned(None) => Reply(NOT_FOUND, Message(PRODUCT_NOT_FOUND))
    case Returned(Some(row)) =>
      match DecodePrice(row)
      case Raised(e) => Reply(INTERNAL_SERVER_ERROR, Message(Str(e)))
      case Returned(p) => Reply(OK, Data(p))
  }

  /** `GET /products/prices/{id}`: `db` is how the query inside `delay_injection` ended. */
  function GetProductPrice(db: Outcome<Option<PriceRow>>, draw: Draw, delay: Chaos.DelaySettings): (r: Delayed<Reply<ProductPrice>>)
    // the delay never changes the reply, only its latency
    ensures !(db.Returned? && Chaos.Triggers(draw, delay.rate, delay.enabled) && delay.ms < 0) ==> r.value == ItemReply(db)
    ensures r.latency == if db.Returned? && Chaos.Triggers(draw, delay.rate, delay.enabled) && delay.ms >= 0
                         then delay.ms as real / 1000.0 else 0.0
    // a failing query is answered without any delay
    ensures db.Raised? ==> r == Delayed(Reply(INTERNAL_SERVER_ERROR, Message(Str(db.error))), 0.0)
    // a negative duration that triggers makes the sleep raise, answered as 500 like any exception
    ensures db.Returned? && Chaos.Triggers(draw, delay.rate, delay.enabled) && delay.ms < 0 ==>
              r.value == Reply(INTERNAL_SERVER_ERROR, Message(Chaos.NEGATIVE_SLEEP))
  {
    var exit := Chaos.DelayExit(db, draw, delay);
    Delayed(ItemReply(exit.value), exit.latency)
  }

  /** The reply of the price list handler once its `with` block has been left with `found`. */
  function ListReply(found: Outcome<seq<PriceRow>>): (r: Reply<seq<ProductPrice>>)
    ensures found.Raised? ==> r == Reply(INTERNAL_SERVER_ERROR, Message(Str(found.error)))
    ensures found == Returned([]) ==> r == Reply(NOT_FOUND, Message(NO_PRODUCTS))
    ensures r.status == OK <==> found.Returned? && |found.value| > 0 && DecodeAll(found.value).Returned?
    // on success: one price per row, in row order
    ensures r.status == OK ==> r.body.Data? && |r.body.value| == |found.value|
    ensures r.status == OK ==> forall i :: 0 <= i < |found.value| ==> Returned(r.body.value[i]) == DecodePrice(found.value[i])
    // a row that fails validation raises inside the `try` as well
    ensures found.Returned? && |found.value| > 0 && DecodeAll(found.value).Raised? ==>
              r == Reply(INTERNAL_SERVER_ERROR, Message(Str(DecodeAll(found.value).error)))
  {
    match found
    case Raised(e) => Reply(INTERNAL_SERVER_ERROR, Message(Str(e)))
    case Returned(rows) =>
      if |rows| > 0 then
        match DecodeAll(rows)
        case Raised(e) => Reply(INTERNAL_SERVER_ERROR, Message(Str(e)))
        case Returned(prices) => Reply(OK, Data(prices))
      else Reply(NOT_FOUND, Message(NO_PRODUCTS))
  }

  /** `GET /products/prices` (the Python function is named `list_product_infos`). */
  function ListProductPrices(db: Outcome<seq<PriceRow>>, draw: Draw, delay: Chaos.DelaySettings): (r: Delayed<Reply<seq<ProductPrice>>>)
    ensures !(db.Returned? && Chaos.Triggers(draw, delay.rate, delay.enabled) && delay.ms < 0) ==> r.value == ListReply(db)
    ensures r.latency == if db.Returned? && Chaos.Triggers(draw, delay.rate, delay.enabled) && delay.ms >= 0
                         then delay.ms as real / 1000.0 else 0.0
    ensures db.Raised? ==> r == Delayed(Reply(INTERNAL_SERVER_ERROR, Message(Str(db.error))), 0.0)
    // a negative duration that triggers makes the sleep raise, answered as 500 like any exception
    ensures db.Returned? && Chaos.Triggers(draw, delay.rate, delay.enabled) && delay.ms < 0 ==>
              r.value == Reply(INTERNAL_SERVER_ERROR, Message(Chaos.NEGATIVE_SLEEP))
  {
    var exit := Chaos.DelayExit(db, draw, delay);
    Delayed(ListReply(exit.value), exit.latency)
  }
}
