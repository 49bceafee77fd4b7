/** The product-info service: product records stored as Redis hashes, read
    under a fault injector, and each handler's outcome mapped to an HTTP reply. */
module InfoService {
  import opened Outcomes
  import Chaos

  /** `stars` and `reviews_count` travel as opaque numerals; nothing computes with them. */
  datatype Numeral = Numeral(text: string)

  datatype ProductInfo = ProductInfo(
    product_id: string,
    title: string,
    brand: string,
    description: string,
    stars: Numeral,
    reviews_count: Numeral,
    bread_crumbs: string,
    url: string)

  /** A Redis hash as `hgetall` returns it with `decode_responses=True`. */
  type Hash = map<string, string>

  /** The Redis database: its keys in the order SCAN reports them and the hash
      stored under each key; or a server that cannot be reached. */
  datatype Redis = Redis(keys: seq<string>, hashes: map<string, Hash>) | Unreachable(message: string)

  const KEY_PREFIX := "product:"
  const FAULT_MESSAGE := "Database connection failed"
  const NO_PRODUCTS := "No products found"
  const PRODUCT_NOT_FOUND := "Product not found"

  predicate HasPrefix(s: string, prefix: string) {
    |prefix| <= |s| && s[..|prefix|] == prefix
  }

  /** `get_redis_product_key`: the Redis key of a product id. */
  function ProductKey(productId: string): (key: string)
    ensures HasPrefix(key, KEY_PREFIX) && key[|KEY_PREFIX|..] == productId
  {
    KEY_PREFIX + productId
  }

  /** Distinct product ids have distinct keys, and a key gives back its id. */
  lemma ProductKeyInjective(a: string, b: string)
    ensures ProductKey(a) == ProductKey(b) <==> a == b
  {
    if ProductKey(a) == ProductKey(b) {
      assert a == ProductKey(a)[|KEY_PREFIX|..];
    }
  }

  /** `hgetall`: the hash under `key`, empty when the key does not exist. */
  function HGetAll(hashes: map<string, Hash>, key: string): (h: Hash)
    ensures key in hashes ==> h == hashes[key]
    // a key that does not exist reads as an empty hash, not an error
    ensures key !in hashes ==> h == map[]
  {
    if key in hashes then hashes[key] else map[]
  }

  /** The hash holds every field `ProductInfo` requires. */
  predicate Complete(h: Hash) {
    && "product_id" in h && "title" in h && "brand" in h && "description" in h
    && "stars" in h && "reviews_count" in h && "bread_crumbs" in h && "url" in h
  }

  /** `ProductInfo(**hash)`: pydantic accepts a hash holding every required
      field (extra fields are ignored) and raises a validation error otherwise. */
  function DecodeInfo(h: Hash): (r: Outcome<ProductInfo>)
    ensures r.Returned? <==> Complete(h)
    ensures r.Raised? ==> r.error == ValidationError("ProductInfo")
    ensures r.Returned? ==> r.value.product_id == h["product_id"] && r.value.title == h["title"]
    ensures r.Returned? ==> r.value.brand == h["brand"] && r.value.description == h["description"]
    ensures r.Returned? ==> r.value.stars == Numeral(h["stars"]) && r.value.reviews_count == Numeral(h["reviews_count"])
    ensures r.Returned? ==> r.value.bread_crumbs == h["bread_crumbs"] && r.value.url == h["url"]
  {
    if Complete(h) then
      Returned(ProductInfo(h["product_id"], h["title"], h["brand"], h["description"],
        Numeral(h["stars"]), Numeral(h["reviews_count"]), h["bread_crumbs"], h["url"]))
    else
      Raised(ValidationError("ProductInfo"))
  }

  /** `scan_iter("product:*")`: the keys matching the glob, in scan order. */
  function ScanProducts(keys: seq<string>): (r: seq<string>)
    ensures forall k :: k in r <==> k in keys && HasPrefix(k, KEY_PREFIX)
    ensures |r| <= |keys|
  {
    if keys == [] then []
    else if HasPrefix(keys[0], KEY_PREFIX) then [keys[0]] + ScanProducts(keys[1..])
    else ScanProducts(keys[1..])
  }

  /** The keys the list handler passes to `hgetall`: each scanned key run through
      `get_redis_product_key` once more. */
  function LookupKeys(scanned: seq<string>): (r: seq<string>)
    ensures |r| == |scanned|
    ensures forall i :: 0 <= i < |scanned| ==> r[i] == ProductKey(scanned[i])
  {
    seq(|scanned|, i requires 0 <= i < |scanned| => ProductKey(scanned[i]))
  }

  /** Loading and decoding the hash under each key in turn; the first failure
      ends the loop and propagates. */
  function FetchAll(hashes: map<string, Hash>, keys: seq<string>): (r: Outcome<seq<ProductInfo>>)
    ensures r.Returned? <==> forall i :: 0 <= i < |keys| ==> DecodeInfo(HGetAll(hashes, keys[i])).Returned?
    ensures r.Returned? ==> |r.value| == |keys|
    ensures r.Returned? ==> forall i :: 0 <= i < |keys| ==> DecodeInfo(HGetAll(hashes, keys[i])) == Returned(r.value[i])
    ensures r.Raised? ==> r.error == ValidationError("ProductInfo")
  {
    if keys == [] then Returned([])
    else match DecodeInfo(HGetAll(hashes, keys[0]))
      case Raised(e) => Raised(e)
      case Returned(info) =>
        match FetchAll(hashes, keys[1..])
        case Raised(e) => Raised(e)
        case Returned(rest) => Returned([info] + rest)
  }

  /** A list of infos where `FetchAll` ended with `rest`, after `done` were already appended. */
  function Prepend(done: seq<ProductInfo>, rest: Outcome<seq<ProductInfo>>): (r: Outcome<seq<ProductInfo>>) {
    match rest
    case Raised(e) => Raised(e)
    case Returned(infos) => Returned(done + infos)
  }

  lemma PrependNothing(rest: Outcome<seq<ProductInfo>>)
    ensures Prepend([], rest) == rest
  {
    if rest.Returned? {
      assert [] + rest.value == rest.value;
    }
  }

  lemma PrependStep(done: seq<ProductInfo>, info: ProductInfo, rest: Outcome<seq<ProductInfo>>)
    ensures Prepend(done, Prepend([info], rest)) == Prepend(done + [info], rest)
  {
    if rest.Returned? {
      assert done + ([info] + rest.value) == (done + [info]) + rest.value;
    }
  }

  /** The block inside `fault_injection` of `list_product_infos`. */
  function ListBody(redis: Redis): (r: Outcome<seq<ProductInfo>>)
    ensures redis.Unreachable? ==> r == Raised(ClientError(redis.message))
    // one info per scanned key, each loaded from the key with the prefix added once more
    ensures redis.Redis? ==> (r.Returned? <==> forall i :: 0 <= i < |ScanProducts(redis.keys)| ==>
              DecodeInfo(HGetAll(redis.hashes, ProductKey(ScanProducts(redis.keys)[i]))).Returned?)
    ensures redis.Redis? && r.Returned? ==> |r.value| == |ScanProducts(redis.keys)|
    ensures redis.Redis? && r.Returned? ==> forall i :: 0 <= i < |r.value| ==>
              DecodeInfo(HGetAll(redis.hashes, ProductKey(ScanProducts(redis.keys)[i]))) == Returned(r.value[i])
    ensures redis.Redis? && r.Raised? ==> r.error == ValidationError("ProductInfo")
  {
    match redis
    case Unreachable(m) => Raised(ClientError(m))
    case Redis(keys, hashes) =>
      var lookups := LookupKeys(ScanProducts(keys));
      assert forall i :: 0 <= i < |lookups| ==> HGetAll(hashes, lookups[i]) == HGetAll(hashes, ProductKey(ScanProducts(keys)[i]));
      FetchAll(hashes, lookups)
  }

  /** The reply of `list_product_infos` for a block that ended with `block`. */
  function ListReply(block: Outcome<seq<ProductInfo>>, draw: Draw, fault: Chaos.FaultSettings): (r: Reply<seq<ProductInfo>>)
    ensures r.status in {OK, NOT_FOUND, INTERNAL_SERVER_ERROR}
    ensures r.status == OK <==> block.Returned? && |block.value| > 0 && !Chaos.Triggers(draw, fault.rate, fault.enabled)
    ensures r.status == OK ==> r.body == Data(block.value)
    ensures r.status == NOT_FOUND <==> block == Returned([]) && !Chaos.Triggers(draw, fault.rate, fault.enabled)
    ensures r.status == NOT_FOUND ==> r.body == Message(NO_PRODUCTS)
    ensures block.Raised? ==> r == Reply(INTERNAL_SERVER_ERROR, Message(Str(block.error)))
    ensures block.Returned? && Chaos.Triggers(draw, fault.rate, fault.enabled) ==>
              r == Reply(INTERNAL_SERVER_ERROR, Message(FAULT_MESSAGE))
  {
    match Chaos.FaultExit(block, draw, fault, FAULT_MESSAGE)
    case Raised(e) => Reply(INTERNAL_SERVER_ERROR, Message(Str(e)))
    case Returned(infos) =>
      if |infos| > 0 then Reply(OK, Data(infos)) else Reply(NOT_FOUND, Message(NO_PRODUCTS))
  }

  /** The loop of `list_product_infos`: one `hgetall` per scanned key, each
      hash validated and appended, the first failure propagating. */
  method LoadScanned(hashes: map<string, Hash>, scanned: seq<string>) returns (block: Outcome<seq<ProductInfo>>)
    ensures block == FetchAll(hashes, LookupKeys(scanned))
  {
    ghost var lookups := LookupKeys(scanned);
    var infos: seq<ProductInfo> := [];
    var i := 0;
    assert lookups[0..] == lookups;
    PrependNothing(FetchAll(hashes, lookups));
    while i < |scanned|
      invariant 0 <= i <= |scanned|
      invariant FetchAll(hashes, lookups) == Prepend(infos, FetchAll(hashes, lookups[i..]))
    {
      var decoded := DecodeInfo(HGetAll(hashes, ProductKey(scanned[i])));
      assert lookups[i..][0] == ProductKey(scanned[i]) && lookups[i..][1..] == lookups[i + 1..];
      if decoded.Raised? {
        assert FetchAll(hashes, lookups[i..]) == Raised(decoded.error);
        return Raised(decoded.error);
      }
      assert FetchAll(hashes, lookups[i..]) == Prepend([decoded.value], FetchAll(hashes, lookups[i + 1..]));
      PrependStep(infos, decoded.value, FetchAll(hashes, lookups[i + 1..]));
      infos := infos + [decoded.value];
      i := i + 1;
    }
    assert lookups[i..] == [];
    assert infos + [] == infos;
    block := Returned(infos);
  }

  /** `GET /products/infos` as written. */
  method ListProductInfos(redis: Redis, draw: Draw, fault: Chaos.FaultSettings) returns (reply: Reply<seq<ProductInfo>>)
    ensures reply == ListReply(ListBody(redis), draw, fault)
  {
    var block: Outcome<seq<ProductInfo>>;
    match redis {
      case Unreachable(m) =>
        block := Raised(ClientError(m));
      case Redis(keys, hashes) =>
        block := LoadScanned(hashes, ScanProducts(keys));
    }
    reply := ListReply(block, draw, fault);
  }

  /** `GET /products/infos` answers 200 with the decoded infos in scan order when
      the block succeeds with some and no fault fires, and 404 when it finds none. */
  lemma ListFound(block: Outcome<seq<ProductInfo>>, draw: Draw, fault: Chaos.FaultSettings)
    requires block.Returned? && !Chaos.Triggers(draw, fault.rate, fault.enabled)
    ensures |block.value| > 0 ==> ListReply(block, draw, fault) == Reply(OK, Data(block.value))
    ensures |block.value| == 0 ==> ListReply(block, draw, fault) == Reply(NOT_FOUND, Message(NO_PRODUCTS))
  {
  }

  /** Any exception, in the block or injected, becomes 500 with `str(e)` as the message. */
  lemma ListFailure(block: Outcome<seq<ProductInfo>>, draw: Draw, fault: Chaos.FaultSettings)
    ensures block.Raised? ==> ListReply(block, draw, fault) == Reply(INTERNAL_SERVER_ERROR, Message(Str(block.error)))
    ensures block.Returned? && Chaos.Triggers(draw, fault.rate, fault.enabled) ==>
              ListReply(block, draw, fault) == Reply(INTERNAL_SERVER_ERROR, Message(FAULT_MESSAGE))
  {
  }

  /** Every key the list handler looks up carries the prefix twice, since the
      scanned keys already start with it. */
  lemma {:induction false} ListLooksUpDoublePrefix(keys: seq<string>, i: nat)
    requires i < |ScanProducts(keys)|
    ensures HasPrefix(LookupKeys(ScanProducts(keys))[i], KEY_PREFIX + KEY_PREFIX)
  {
    var k := ScanProducts(keys)[i];
    assert k in ScanProducts(keys);
    assert k == KEY_PREFIX + k[|KEY_PREFIX|..];
    assert LookupKeys(ScanProducts(keys))[i] == KEY_PREFIX + KEY_PREFIX + k[|KEY_PREFIX|..];
  }

  /** The list as evidently intended: each scanned key looked up as it is. */
  function ListBodyIntended(redis: Redis): (r: Outcome<seq<ProductInfo>>) {
    match redis
    case Unreachable(m) => Raised(ClientError(m))
    case Redis(keys, hashes) => FetchAll(hashes, ScanProducts(keys))
  }

  /** With the intended lookup, a store whose product keys all hold complete
      hashes is listed in full, in scan order. */
  lemma ListIntendedFindsStored(keys: seq<string>, hashes: map<string, Hash>)
    requires forall k :: k in keys && HasPrefix(k, KEY_PREFIX) ==> k in hashes && DecodeInfo(hashes[k]).Returned?
    ensures var r := ListBodyIntended(Redis(keys, hashes));
            r.Returned? && |r.value| == |ScanProducts(keys)| &&
            forall i :: 0 <= i < |r.value| ==> Returned(r.value[i]) == DecodeInfo(hashes[ScanProducts(keys)[i]])
  {
    var scanned := ScanProducts(keys);
    forall i | 0 <= i < |scanned|
      ensures DecodeInfo(HGetAll(hashes, scanned[i])).Returned?
    {
      assert scanned[i] in scanned;
    }
    forall i | 0 <= i < |scanned|
      ensures HGetAll(hashes, scanned[i]) == hashes[scanned[i]]
    {
      assert scanned[i] in scanned;
    }
  }

  /** A store holding one complete product under "product:1": the code as written
      answers 500 (it looks up "product:product:1" and validates an empty hash),
      where the intended lookup answers 200 with that product. */
  lemma ListDoublePrefixCounterexample(h: Hash, fault: Chaos.FaultSettings)
    requires DecodeInfo(h).Returned? && !fault.enabled
    ensures ListReply(ListBody(Redis(["product:1"], map["product:1" := h])), 100, fault)
            == Reply(INTERNAL_SERVER_ERROR, Message("validation error for ProductInfo"))
    ensures ListReply(ListBodyIntended(Redis(["product:1"], map["product:1" := h])), 100, fault)
            == Reply(OK, Data([DecodeInfo(h).value]))
  {
    var keys := ["product:1"];
    var hashes := map["product:1" := h];
    assert HasPrefix(keys[0], KEY_PREFIX);
    assert ScanProducts(keys) == keys;
    var lookup := ProductKey(keys[0]);
    assert LookupKeys(keys) == [lookup];
    assert lookup != keys[0] by {
      assert |lookup| != |keys[0]|;
    }
    assert HGetAll(hashes, lookup) == map[];
    assert HGetAll(hashes, keys[0]) == h;
    assert FetchAll(hashes, [lookup]) == Raised(ValidationError("ProductInfo"));
    assert Str(ValidationError("ProductInfo")) == "validation error for ProductInfo";
    assert FetchAll(hashes, keys[1..]) == Returned([]);
    assert FetchAll(hashes, keys) == Returned([DecodeInfo(h).value] + []);
    assert [DecodeInfo(h).value] + [] == [DecodeInfo(h).value];
  }

  /** The block inside `fault_injection` of `get_product_info`. */
  function ItemBody(redis: Redis, productId: string): (r: Outcome<ProductInfo>)
    ensures redis.Unreachable? ==> r == Raised(ClientError(redis.message))
    // the hash under the product's key validates or the lookup raises a validation error
    ensures redis.Redis? ==> (r.Returned? <==> Complete(HGetAll(redis.hashes, ProductKey(productId))))
    ensures redis.Redis? && r.Raised? ==> r.error == ValidationError("ProductInfo")
    ensures redis.Redis? && r.Returned? ==> Returned(r.value) == DecodeInfo(HGetAll(redis.hashes, ProductKey(productId)))
  {
    match redis
    case Unreachable(m) => Raised(ClientError(m))
    case Redis(_, hashes) => DecodeInfo(HGetAll(hashes, ProductKey(productId)))
  }

  /** `GET /products/infos/{id}` as written: a pydantic model is always truthy,
      so every value that reaches `if product_info:` is answered with 200. */
  function GetProductInfo(redis: Redis, productId: string, draw: Draw, fault: Chaos.FaultSettings): (r: Reply<ProductInfo>)
    ensures r.status == OK <==> Chaos.FaultExit(ItemBody(redis, productId), draw, fault, FAULT_MESSAGE).Returned?
    ensures r.status == OK ==> r.body == Data(ItemBody(redis, productId).value)
    ensures r.status != OK ==> r.status == INTERNAL_SERVER_ERROR && r.body.Message?
    ensures ItemBody(redis, productId).Raised? ==> r == Reply(INTERNAL_SERVER_ERROR, Message(Str(ItemBody(redis, productId).error)))
    ensures ItemBody(redis, productId).Returned? && Chaos.Triggers(draw, fault.rate, fault.enabled) ==>
              r == Reply(INTERNAL_SERVER_ERROR, Message(FAULT_MESSAGE))
  {
    match Chaos.FaultExit(ItemBody(redis, productId), draw, fault, FAULT_MESSAGE)
    case Raised(e) => Reply(INTERNAL_SERVER_ERROR, Message(Str(e)))
    case Returned(info) => Reply(OK, Data(info))
  }

  /** `GET /products/infos/{id}` as evidently intended: an absent product (an
      empty hash) is answered with 404. */
  function GetProductInfoIntended(redis: Redis, productId: string, draw: Draw, fault: Chaos.FaultSettings): (r: Reply<ProductInfo>)
    ensures redis.Redis? && HGetAll(redis.hashes, ProductKey(productId)) == map[] &&
            !Chaos.Triggers(draw, fault.rate, fault.enabled) ==>
              r == Reply(NOT_FOUND, Message(PRODUCT_NOT_FOUND))
    ensures redis.Redis? && HGetAll(redis.hashes, ProductKey(productId)) != map[] ==>
              r == GetProductInfo(redis, productId, draw, fault)
  {
    match redis
    case Redis(_, hashes) =>
      var h := HGetAll(hashes, ProductKey(productId));
      if h == map[] then
        match Chaos.FaultExit(Returned(h), draw, fault, FAULT_MESSAGE)
        case Raised(e) => Reply(INTERNAL_SERVER_ERROR, Message(Str(e)))
        case Returned(_) => Reply(NOT_FOUND, Message(PRODUCT_NOT_FOUND))
      else GetProductInfo(redis, productId, draw, fault)
    case Unreachable(_) => GetProductInfo(redis, productId, draw, fault)
  }

  /** A missing product: the code as written answers 500 with the validation
      error, the intended handler 404. */
  lemma ItemMissingCounterexample(productId: string, fault: Chaos.FaultSettings)
    requires !fault.enabled
    ensures GetProductInfo(Redis([], map[]), productId, 100, fault)
            == Reply(INTERNAL_SERVER_ERROR, Message("validation error for ProductInfo"))
    ensures GetProductInfoIntended(Redis([], map[]), productId, 100, fault)
            == Reply(NOT_FOUND, Message(PRODUCT_NOT_FOUND))
  {
    assert !Complete(HGetAll(map[], ProductKey(productId)));
  }
}
