/** The API gateway: it joins the info and price services' replies into
    products, forwards an upstream failure verbatim, and answers with its own
    JSON otherwise. The two upstream replies are inputs; fetching them
    concurrently is not part of the model. */
module Gateway {
  import opened Outcomes
  import InfoService
  import PriceService

  type ProductInfo = InfoService.ProductInfo
  type ProductPrice = PriceService.ProductPrice

  datatype Price = Price(currency: string, value: real)

  datatype Product = Product(
    product_id: string,
    title: string,
    brand: string,
    description: string,
    stars: InfoService.Numeral,
    reviews_count: InfoService.Numeral,
    price: Price,
    url: string)

  /** What a gateway handler answers with. */
  datatype Response<I, P, O> =
    | Own(reply: Reply<O>)         // a JSONResponse the gateway builds itself
    | FromInfo(info: Reply<I>)     // the info upstream's status and body, forwarded unchanged
    | FromPrice(price: Reply<P>)   // the price upstream's status and body, forwarded unchanged
    | Unhandled(error: PyError)    // an exception no handler catches; the server answers 500
  {
    function Status(): int {
      match this
      case Own(r) => r.status
      case FromInfo(r) => r.status
      case FromPrice(r) => r.status
      case Unhandled(_) => INTERNAL_SERVER_ERROR
    }
  }

  const MISMATCH := "Mismatch in product info and price data"
  /** What Python raises when a string is indexed by a string. */
  const STRING_INDICES := "string indices must be integers"

  function InfoId(info: ProductInfo): (id: string) { info.product_id }
  function PriceId(price: ProductPrice): (id: string) { price.product_id }

  /** `Product(**{**info, "price": Price(**price)})`: pydantic keeps the fields
      `Product` declares and ignores the rest (`bread_crumbs`, the price's id). */
  function Merge(info: ProductInfo, price: ProductPrice): (p: Product)
    ensures p.price == Price(price.currency, price.value)
    ensures p.product_id == info.product_id && p.title == info.title && p.brand == info.brand
    ensures p.description == info.description && p.stars == info.stars
    ensures p.reviews_count == info.reviews_count && p.url == info.url
  {
    Product(info.product_id, info.title, info.brand, info.description,
      info.stars, info.reviews_count, Price(price.currency, price.value), info.url)
  }

  // ---------------------------------------------------------------------------
  // GET /products/ids

  /** A row of `SELECT product_id FROM product_price`. */
  datatype IdRow = IdRow(product_id: string)

  /** `list_product_ids`: `rows` is how the MySQL query ended. Its handler for
      HTTP status errors can never run (nothing in the block raises one), so a
      database error is not caught. */
  function ListProductIds(rows: Outcome<seq<IdRow>>): (r: Response<(), (), seq<string>>)
    ensures rows.Raised? ==> r == Unhandled(rows.error)
    ensures rows.Returned? ==> r.Own? && r.reply.status == OK && r.reply.body.Data?
    ensures rows.Returned? ==> |r.reply.body.value| == |rows.value|
    ensures rows.Returned? ==> forall i :: 0 <= i < |rows.value| ==> r.reply.body.value[i] == rows.value[i].product_id
  {
    match rows
    case Raised(e) => Unhandled(e)
    case Returned(rs) => Own(Reply(OK, Data(seq(|rs|, i requires 0 <= i < |rs| => rs[i].product_id))))
  }

  // ---------------------------------------------------------------------------
  // GET /products/{id}

  /** `get_product`: info's status is checked first, then price's; a failing
      upstream's reply is forwarded. */
  function GetProduct(info: Reply<ProductInfo>, price: Reply<ProductPrice>): (r: Response<ProductInfo, ProductPrice, Product>)
    ensures !IsSuccess(info.status) ==> r == FromInfo(info)
    ensures IsSuccess(info.status) && !IsSuccess(price.status) ==> r == FromPrice(price)
    ensures r.Own? <==> IsSuccess(info.status) && IsSuccess(price.status) && info.body.Data? && price.body.Data?
    ensures r.Own? ==> r.reply == Reply(OK, Data(Merge(info.body.value, price.body.value)))
    // a 2xx reply carrying an error object fails pydantic validation, uncaught
    ensures r.Unhandled? ==> r.error.ValidationError?
  {
    if !IsSuccess(info.status) then FromInfo(info)
    else if !IsSuccess(price.status) then FromPrice(price)
    else if price.body.Message? then Unhandled(ValidationError("Price"))
    else if info.body.Message? then Unhandled(ValidationError("Product"))
    else Own(Reply(OK, Data(Merge(info.body.value, price.body.value))))
  }

  /** A 404 from the price service next to a 200 from the info service is
      answered with the price service's 404 and body. */
  lemma GetProductPriceNotFound(info: ProductInfo, body: Body<ProductPrice>)
    ensures GetProduct(Reply(OK, Data(info)), Reply(NOT_FOUND, body)) == FromPrice(Reply(NOT_FOUND, body))
    ensures GetProduct(Reply(OK, Data(info)), Reply(NOT_FOUND, body)).Status() == NOT_FOUND
  {
  }

  // ---------------------------------------------------------------------------
  // The id-keyed dicts of `list_products`

  /** A Python dict keyed by product id: its keys in insertion order, and its entries. */
  datatype Dict<V> = Dict(keys: seq<string>, entries: map<string, V>)

  /** The product ids of `rows`, in row order. */
  function Ids<R>(rows: seq<R>, key: R -> string): (ids: seq<string>)
    ensures |ids| == |rows|
    ensures forall i :: 0 <= i < |rows| ==> ids[i] == key(rows[i])
  {
    seq(|rows|, i requires 0 <= i < |rows| => key(rows[i]))
  }

  predicate NoDuplicates(s: seq<string>) {
    forall i, j :: 0 <= i < j < |s| ==> s[i] != s[j]
  }

  /** The distinct elements of `ids`, in order of first occurrence. */
  function Distinct(ids: seq<string>): (d: seq<string>)
    ensures forall x :: x in d <==> x in ids
    ensures NoDuplicates(d)
    ensures |d| <= |ids|
  {
    if ids == [] then []
    else
      var d := Distinct(ids[..|ids| - 1]);
      var x := ids[|ids| - 1];
      assert forall y :: y in ids <==> y in ids[..|ids| - 1] || y == x by {
        assert ids == ids[..|ids| - 1] + [x];
      }
      if x in d then d else d + [x]
  }

  /** Without duplicates, nothing is dropped: `Distinct` gives its input back. */
  lemma {:induction false} DistinctOfDistinct(ids: seq<string>)
    requires NoDuplicates(ids)
    ensures Distinct(ids) == ids
  {
    if ids != [] {
      var init := ids[..|ids| - 1];
      DistinctOfDistinct(init);
      assert ids[|ids| - 1] !in init;
      assert ids == init + [ids[|ids| - 1]];
    }
  }

  /** The index of the first occurrence of `x` in `ids`. */
  function FirstIndex(ids: seq<string>, x: string): (k: nat)
    requires x in ids
    ensures k < |ids| && ids[k] == x
    ensures forall j :: 0 <= j < k ==> ids[j] != x
  {
    if ids[0] == x then 0 else 1 + FirstIndex(ids[1..], x)
  }

  /** `Distinct` lists the ids in the order in which they first occur. */
  lemma {:induction false} DistinctFirstOccurrenceOrder(ids: seq<string>, i: nat, j: nat)
    requires i < j < |Distinct(ids)|
    ensures FirstIndex(ids, Distinct(ids)[i]) < FirstIndex(ids, Distinct(ids)[j])
  {
    var init := ids[..|ids| - 1];
    var x := ids[|ids| - 1];
    var d := Distinct(init);
    assert ids == init + [x];
    FirstIndexOfPrefix(init, x, Distinct(ids)[i]);
    if j < |d| {
      DistinctFirstOccurrenceOrder(init, i, j);
      FirstIndexOfPrefix(init, x, Distinct(ids)[j]);
    } else {
      // Distinct(ids)[j] is x, which does not occur in init
      assert x !in init;
      assert FirstIndex(ids, x) == |init| by {
        FirstIndexAtEnd(init, x);
      }
    }
  }

  lemma {:induction false} FirstIndexOfPrefix(init: seq<string>, x: string, y: string)
    requires y in init
    ensures FirstIndex(init + [x], y) == FirstIndex(init, y)
  {
    if init[0] != y {
      assert (init + [x])[1..] == init[1..] + [x];
      FirstIndexOfPrefix(init[1..], x, y);
    }
  }

  lemma {:induction false} FirstIndexAtEnd(init: seq<string>, x: string)
    requires x !in init
    ensures FirstIndex(init + [x], x) == |init|
  {
    if init != [] {
      assert (init + [x])[1..] == init[1..] + [x];
      FirstIndexAtEnd(init[1..], x);
    }
  }

  /** The row a dict comprehension keeps for `id`: the last row with that id. */
  function LastWith<R>(rows: seq<R>, key: R -> string, id: string): (r: Option<R>)
    ensures r.None? <==> id !in Ids(rows, key)
    ensures r.Some? ==> key(r.value) == id
  {
    if rows == [] then None
    else if key(rows[|rows| - 1]) == id then Some(rows[|rows| - 1])
    else
      assert Ids(rows, key) == Ids(rows[..|rows| - 1], key) + [key(rows[|rows| - 1])];
      LastWith(rows[..|rows| - 1], key, id)
  }

  /** Later duplicates overwrite earlier ones: the row kept for an id is the
      last row carrying it. */
  lemma {:induction false} LastWithIsLast<R>(rows: seq<R>, key: R -> string, i: nat)
    requires i < |rows|
    requires forall j :: i < j < |rows| ==> key(rows[j]) != key(rows[i])
    ensures LastWith(rows, key, key(rows[i])) == Some(rows[i])
  {
    if i < |rows| - 1 {
      var init := rows[..|rows| - 1];
      assert init[i] == rows[i];
      LastWithIsLast(init, key, i);
    }
  }

  /** `{key(row): row for row in rows}`. */
  function DictOf<R>(rows: seq<R>, key: R -> string): (d: Dict<R>)
    ensures d.keys == Distinct(Ids(rows, key))
    ensures forall id :: id in d.entries <==> id in Ids(rows, key)
    ensures forall id :: id in d.entries ==> LastWith(rows, key, id) == Some(d.entries[id])
  {
    if rows == [] then Dict([], map[])
    else
      var init := rows[..|rows| - 1];
      var row := rows[|rows| - 1];
      var d := DictOf(init, key);
      assert Ids(rows, key) == Ids(init, key) + [key(row)];
      assert Ids(rows, key)[..|rows| - 1] == Ids(init, key);
      Dict(if key(row) in d.entries then d.keys else d.keys + [key(row)], d.entries[key(row) := row])
  }

  // ---------------------------------------------------------------------------
  // GET /products

  /** The outcome of joining info and price data by id. */
  datatype Joined = Joined(products: seq<Product>) | MissingPrice(id: string)

  /** Every one of `ids` has an info row. */
  predicate AllHaveInfo(ids: seq<string>, infos: seq<ProductInfo>) {
    forall i :: 0 <= i < |ids| ==> LastWith(infos, InfoId, ids[i]).Some?
  }

  /** The reference join: for each id in turn, the product built from the last
      info row and the last price row with that id; the first id without a
      price row stops the join. */
  function JoinIds(ids: seq<string>, infos: seq<ProductInfo>, prices: seq<ProductPrice>): (r: Joined)
    requires AllHaveInfo(ids, infos)
    ensures r.Joined? <==> forall i :: 0 <= i < |ids| ==> LastWith(prices, PriceId, ids[i]).Some?
    ensures r.Joined? ==> |r.products| == |ids|
    ensures r.Joined? ==> forall i :: 0 <= i < |ids| ==>
              r.products[i] == Merge(LastWith(infos, InfoId, ids[i]).value, LastWith(prices, PriceId, ids[i]).value)
    ensures r.MissingPrice? ==> r.id in ids && LastWith(prices, PriceId, r.id).None?
  {
    if ids == [] then Joined([])
    else match LastWith(prices, PriceId, ids[0])
      case None => MissingPrice(ids[0])
      case Some(price) =>
        match JoinIds(ids[1..], infos, prices)
        case MissingPrice(id) => MissingPrice(id)
        case Joined(rest) => Joined([Merge(LastWith(infos, InfoId, ids[0]).value, price)] + rest)
  }

  /** The join stops at the first id without a price. */
  lemma {:induction false} JoinIdsFirstMissing(ids: seq<string>, infos: seq<ProductInfo>, prices: seq<ProductPrice>, k: nat)
    requires AllHaveInfo(ids, infos)
    requires k < |ids| && LastWith(prices, PriceId, ids[k]).None?
    requires forall j :: 0 <= j < k ==> LastWith(prices, PriceId, ids[j]).Some?
    ensures JoinIds(ids, infos, prices) == MissingPrice(ids[k])
  {
    if k > 0 {
      JoinIdsFirstMissing(ids[1..], infos, prices, k - 1);
    }
  }

  /** The length of a decoded list body; a `{"message": ...}` object has one key. */
  function BodyLen<T>(body: Body<seq<T>>): (n: nat)
    ensures body.Data? ==> n == |body.value|
    ensures body.Message? ==> n == 1
  {
    match body
    case Data(rows) => |rows|
    case Message(_) => 1
  }

  type ListResponse = Response<seq<ProductInfo>, seq<ProductPrice>, seq<Product>>

  /** What `list_products` answers, as a function of the two upstream replies. */
  function ListProductsSpec(info: Reply<seq<ProductInfo>>, price: Reply<seq<ProductPrice>>): (r: ListResponse)
    // info's status is checked before price's; a failing reply is forwarded as it is
    ensures !IsSuccess(info.status) ==> r == FromInfo(info)
    ensures IsSuccess(info.status) && !IsSuccess(price.status) ==> r == FromPrice(price)
    // lists of different lengths are refused as a whole
    ensures IsSuccess(info.status) && IsSuccess(price.status) && BodyLen(info.body) != BodyLen(price.body) ==>
              r == Own(Reply(INTERNAL_SERVER_ERROR, Message(MISMATCH)))
    // the gateway's own replies are the mismatch and the joined list
    ensures r.Own? ==> r.reply == Reply(INTERNAL_SERVER_ERROR, Message(MISMATCH)) || (r.reply.status == OK && r.reply.body.Data?)
  {
    if !IsSuccess(info.status) then FromInfo(info)
    else if !IsSuccess(price.status) then FromPrice(price)
    else if BodyLen(info.body) != BodyLen(price.body) then Own(Reply(INTERNAL_SERVER_ERROR, Message(MISMATCH)))
    else if info.body.Message? || price.body.Message? then Unhandled(TypeError(STRING_INDICES))
    else
      var infos, prices := info.body.value, price.body.value;
      var ids := Distinct(Ids(infos, InfoId));
      assert AllHaveInfo(ids, infos) by {
        forall i | 0 <= i < |ids| ensures LastWith(infos, InfoId, ids[i]).Some? {
          assert ids[i] in ids;
        }
      }
      match JoinIds(ids, infos, prices)
      case Joined(products) => Own(Reply(OK, Data(products)))
      case MissingPrice(id) => Unhandled(KeyError(id))
  }

  /** The keys of the info dict all have info rows. */
  lemma DictKeysHaveInfo(infos: seq<ProductInfo>)
    ensures AllHaveInfo(DictOf(infos, InfoId).keys, infos)
  {
    var ids := DictOf(infos, InfoId).keys;
    forall i | 0 <= i < |ids| ensures LastWith(infos, InfoId, ids[i]).Some? {
      assert ids[i] in ids;
    }
  }

  /** The dicts and the loop of `list_products`: the two id-keyed dicts are
      built from the rows, then the info dict's keys are walked in order, the
      price looked up (a missing key raises KeyError) and the merged product
      appended. */
  method JoinLoop(infos: seq<ProductInfo>, prices: seq<ProductPrice>) returns (joined: Joined)
    ensures AllHaveInfo(DictOf(infos, InfoId).keys, infos)
    ensures joined == JoinIds(DictOf(infos, InfoId).keys, infos, prices)
  {
    var infoMap := DictOf(infos, InfoId);
    var priceMap := DictOf(prices, PriceId);
    ghost var ids := infoMap.keys;
    DictKeysHaveInfo(infos);
    var products: seq<Product> := [];
    var i := 0;
    while i < |infoMap.keys|
      invariant 0 <= i <= |ids|
      invariant forall j :: 0 <= j < i ==> LastWith(prices, PriceId, ids[j]).Some?
      invariant |products| == i
      invariant forall j :: 0 <= j < i ==>
                  products[j] == Merge(LastWith(infos, InfoId, ids[j]).value, LastWith(prices, PriceId, ids[j]).value)
    {
      var id := infoMap.keys[i];
      assert id in ids;
      if id !in priceMap.entries {
        JoinIdsFirstMissing(ids, infos, prices, i);
        return MissingPrice(id);
      }
      products := products + [Merge(infoMap.entries[id], priceMap.entries[id])];
      i := i + 1;
    }
    assert JoinIds(ids, infos, prices).products == products;
    joined := Joined(products);
  }

  /** `list_products`: the status and length checks, then the dicts and the
      join loop, one product per key of the info dict. */
  method ListProducts(info: Reply<seq<ProductInfo>>, price: Reply<seq<ProductPrice>>) returns (r: ListResponse)
    ensures r == ListProductsSpec(info, price)
  {
    if !IsSuccess(info.status) { return FromInfo(info); }
    if !IsSuccess(price.status) { return FromPrice(price); }
    if BodyLen(info.body) != BodyLen(price.body) {
      return Own(Reply(INTERNAL_SERVER_ERROR, Message(MISMATCH)));
    }
    if info.body.Message? || price.body.Message? {
      return Unhandled(TypeError(STRING_INDICES));
    }
    var joined := JoinLoop(info.body.value, price.body.value);
    match joined {
      case Joined(products) => r := Own(Reply(OK, Data(products)));
      case MissingPrice(id) => r := Unhandled(KeyError(id));
    }
  }

  /** On success the answer holds exactly one product per distinct info id, in
      order of first occurrence; each takes currency and value from the last
      price row of its id and every other field from the last info row of its id. */
  lemma ListProductsJoin(si: int, infos: seq<ProductInfo>, sp: int, prices: seq<ProductPrice>)
    requires IsSuccess(si) && IsSuccess(sp) && |infos| == |prices|
    requires forall id :: id in Ids(infos, InfoId) ==> id in Ids(prices, PriceId)
    ensures var r := ListProductsSpec(Reply(si, Data(infos)), Reply(sp, Data(prices)));
            var ids := Distinct(Ids(infos, InfoId));
            && r.Own? && r.reply.status == OK && r.reply.body.Data?
            && |r.reply.body.value| == |ids|
            && forall i :: 0 <= i < |ids| ==>
                 var p := r.reply.body.value[i];
                 && p.product_id == ids[i]
                 && p.price == Price(LastWith(prices, PriceId, ids[i]).value.currency, LastWith(prices, PriceId, ids[i]).value.value)
                 && p == Merge(LastWith(infos, InfoId, ids[i]).value, LastWith(prices, PriceId, ids[i]).value)
  {
    var ids := Distinct(Ids(infos, InfoId));
    forall i | 0 <= i < |ids|
      ensures LastWith(infos, InfoId, ids[i]).Some? && LastWith(prices, PriceId, ids[i]).Some?
    {
      assert ids[i] in ids;
    }
  }

  /** The answer never holds more products than the info list has rows, and
      exactly as many when the info ids are distinct. */
  lemma ListProductsLength(info: Reply<seq<ProductInfo>>, price: Reply<seq<ProductPrice>>)
    requires ListProductsSpec(info, price).Own? && ListProductsSpec(info, price).reply.status == OK
    ensures info.body.Data?
    ensures |ListProductsSpec(info, price).reply.body.value| <= |info.body.value|
    ensures NoDuplicates(Ids(info.body.value, InfoId)) ==>
              |ListProductsSpec(info, price).reply.body.value| == |info.body.value|
  {
    var ids := Ids(info.body.value, InfoId);
    if NoDuplicates(ids) {
      DistinctOfDistinct(ids);
    }
  }

  /** An info id without any price row yields an uncaught KeyError for such an
      id, never a product lacking a price. */
  lemma ListProductsMissingPrice(si: int, infos: seq<ProductInfo>, sp: int, prices: seq<ProductPrice>, id: string)
    requires IsSuccess(si) && IsSuccess(sp) && |infos| == |prices|
    requires id in Ids(infos, InfoId) && id !in Ids(prices, PriceId)
    ensures var r := ListProductsSpec(Reply(si, Data(infos)), Reply(sp, Data(prices)));
            r.Unhandled? && r.error.KeyError? &&
            r.error.key in Ids(infos, InfoId) && r.error.key !in Ids(prices, PriceId)
  {
    var ids := Distinct(Ids(infos, InfoId));
    assert id in ids;
    var k :| 0 <= k < |ids| && ids[k] == id;
    assert LastWith(prices, PriceId, ids[k]).None?;
  }
}
