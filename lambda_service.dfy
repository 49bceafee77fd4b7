/** The Lambda variant of the info service: one DynamoDB `batch_get_item`
    call wrapped in both injectors, and a handler that passes its result on.
    The DynamoDB client is a parameter: a function from the request it is
    given to how the call ends. */
module LambdaService {
  import opened Outcomes
  import Chaos

  /** A DynamoDB attribute value; the code itself only builds the string form. */
  datatype AttributeValue = S(s: string) | N(n: string)

  type Item = map<string, AttributeValue>

  datatype KeysAndAttributes = KeysAndAttributes(keys: seq<Item>)

  /** `RequestItems` of a `batch_get_item` call: table name to the keys to fetch. */
  datatype BatchGetRequest = BatchGetRequest(requestItems: map<string, KeysAndAttributes>)

  /** The `Responses` part of the reply: table name to the items found. */
  datatype BatchGetResponse = BatchGetResponse(responses: map<string, seq<Item>>)

  datatype FaultInjectionConfig = FaultInjectionConfig(enabled: bool, faultPercentage: int)
  datatype DelayInjectionConfig = DelayInjectionConfig(enabled: bool, delayMs: int, delayPercentage: int)

  /** The environment-derived settings, read once at start-up. */
  datatype Config = Config(tableName: string, fault: FaultInjectionConfig, delay: DelayInjectionConfig)

  const FAULT_MESSAGE := "Failed to get product info from DynamoDB"
  const PRODUCT_IDS := "product_ids"

  /** The draw fires the fault injector: `randint(1, 100) <= FAULT_PERCENTAGE` and enabled. */
  predicate FaultFires(draw: Draw, c: FaultInjectionConfig) {
    Chaos.Triggers(draw, c.faultPercentage as real, c.enabled)
  }

  /** The draw fires the delay injector: `randint(1, 100) <= DELAY_PERCENTAGE` and enabled. */
  predicate DelayFires(draw: Draw, c: DelayInjectionConfig) {
    Chaos.Triggers(draw, c.delayPercentage as real, c.enabled)
  }

  /** `fault_injection(message)` with the Lambda's integer percentage. */
  function FaultInjection<T>(body: Outcome<T>, draw: Draw, c: FaultInjectionConfig, message: string): (r: Outcome<T>)
    ensures body.Raised? ==> r == body
    ensures body.Returned? ==> (r == Raised(Exception(message)) <==> FaultFires(draw, c))
    ensures body.Returned? && !FaultFires(draw, c) ==> r == body
    ensures r.Returned? ==> r == body
  {
    Chaos.FaultExit(body, draw, Chaos.FaultSettings(c.enabled, c.faultPercentage as real), message)
  }

  /** `delay_injection()` with the Lambda's integer percentage: sleeps `DELAY_MS / 1000` seconds. */
  function DelayInjection<T>(body: Outcome<T>, draw: Draw, c: DelayInjectionConfig): (r: Delayed<Outcome<T>>)
    ensures body.Raised? ==> r == Delayed(body, 0.0)
    ensures r.value.Returned? ==> r.value == body
    ensures body.Returned? && c.delayMs >= 0 ==>
              r == Delayed(body, if DelayFires(draw, c) then c.delayMs as real / 1000.0 else 0.0)
    // a draw that does not fire sleeps nothing and passes the outcome on
    ensures !DelayFires(draw, c) ==> r == Delayed(body, 0.0)
    ensures body.Returned? && c.delayMs < 0 && DelayFires(draw, c) ==>
              r.value == Raised(ValueError(Chaos.NEGATIVE_SLEEP))
    ensures body.Returned? && c.delayMs < 0 && DelayFires(draw, c) ==> r.latency == 0.0
  {
    Chaos.DelayExit(body, draw, Chaos.DelaySettings(c.enabled, c.delayPercentage as real, c.delayMs))
  }

  /** `[{"product_id": {"S": id}} for id in product_ids]`. */
  function BatchKeys(ids: seq<string>): (keys: seq<Item>)
    ensures |keys| == |ids|
    ensures forall i :: 0 <= i < |ids| ==> keys[i] == map["product_id" := S(ids[i])]
  {
    if ids == [] then [] else [map["product_id" := S(ids[0])]] + BatchKeys(ids[1..])
  }

  function BatchRequest(tableName: string, ids: seq<string>): (req: BatchGetRequest)
    // only the configured table is asked, for one key per id in id order
    ensures req.requestItems.Keys == {tableName}
    ensures |req.requestItems[tableName].keys| == |ids|
    ensures forall i :: 0 <= i < |ids| ==> req.requestItems[tableName].keys[i] == map["product_id" := S(ids[i])]
  {
    BatchGetRequest(map[tableName := KeysAndAttributes(BatchKeys(ids))])
  }

  /** The block inside both injectors: build the keys, call `batch_get_item`
      and return `response["Responses"][TABLE_NAME]`. */
  function QueryBlock(ids: seq<string>, tableName: string, batchGetItem: BatchGetRequest -> Outcome<BatchGetResponse>): (r: Outcome<seq<Item>>)
    ensures batchGetItem(BatchRequest(tableName, ids)).Raised? ==> r == Raised(batchGetItem(BatchRequest(tableName, ids)).error)
    ensures r.Returned? <==> batchGetItem(BatchRequest(tableName, ids)).Returned? &&
                             tableName in batchGetItem(BatchRequest(tableName, ids)).value.responses
    ensures r.Returned? ==> r.value == batchGetItem(BatchRequest(tableName, ids)).value.responses[tableName]
  {
    match batchGetItem(BatchRequest(tableName, ids))
    case Raised(e) => Raised(e)
    case Returned(response) =>
      if tableName in response.responses then Returned(response.responses[tableName])
      else Raised(KeyError(tableName))
  }

  /** `get_product_infos`: `with (fault_injection(...), delay_injection())`
      leaves the inner manager first, so the delay is decided (and slept)
      before the fault is. `delayDraw` and `faultDraw` are their two draws. */
  function GetProductInfos(ids: seq<string>, cfg: Config, batchGetItem: BatchGetRequest -> Outcome<BatchGetResponse>,
                           delayDraw: Draw, faultDraw: Draw): (r: Delayed<Outcome<seq<Item>>>)
    // a failing query is passed on, without a delay and without a fault
    ensures QueryBlock(ids, cfg.tableName, batchGetItem).Raised? ==>
              r == Delayed(QueryBlock(ids, cfg.tableName, batchGetItem), 0.0)
    // the delay is decided by its own draw alone: the fault never changes the time slept
    ensures r.latency == if QueryBlock(ids, cfg.tableName, batchGetItem).Returned? && DelayFires(delayDraw, cfg.delay) && cfg.delay.delayMs >= 0
                         then cfg.delay.delayMs as real / 1000.0 else 0.0
    // unless the sleep itself raised, the fault fires exactly when its draw triggers
    ensures QueryBlock(ids, cfg.tableName, batchGetItem).Returned? && !(DelayFires(delayDraw, cfg.delay) && cfg.delay.delayMs < 0) ==>
              (r.value == Raised(Exception(FAULT_MESSAGE)) <==> FaultFires(faultDraw, cfg.fault))
    // a sleep that raises reaches the fault injector as an exception and passes through
    ensures QueryBlock(ids, cfg.tableName, batchGetItem).Returned? && DelayFires(delayDraw, cfg.delay) && cfg.delay.delayMs < 0 ==>
              r.value == Raised(ValueError(Chaos.NEGATIVE_SLEEP))
    // without a raising sleep or a fault, the table's items reach the caller unchanged
    ensures QueryBlock(ids, cfg.tableName, batchGetItem).Returned? && !(DelayFires(delayDraw, cfg.delay) && cfg.delay.delayMs < 0)
            && !FaultFires(faultDraw, cfg.fault) ==>
              r.value == QueryBlock(ids, cfg.tableName, batchGetItem)
    // a value that reaches the caller is exactly the table's items
    ensures r.value.Returned? ==> r.value == QueryBlock(ids, cfg.tableName, batchGetItem)
  {
    var delayed := DelayInjection(QueryBlock(ids, cfg.tableName, batchGetItem), delayDraw, cfg.delay);
    Delayed(FaultInjection(delayed.value, faultDraw, cfg.fault, FAULT_MESSAGE), delayed.latency)
  }

  /** `lambda_handler`: reads `event["product_ids"]` and returns what
      `get_product_infos` returns. */
  function LambdaHandler(event: map<string, seq<string>>, cfg: Config, batchGetItem: BatchGetRequest -> Outcome<BatchGetResponse>,
                         delayDraw: Draw, faultDraw: Draw): (r: Delayed<Outcome<seq<Item>>>)
    ensures PRODUCT_IDS !in event ==> r == Delayed(Raised(KeyError(PRODUCT_IDS)), 0.0)
    ensures PRODUCT_IDS in event ==> r == GetProductInfos(event[PRODUCT_IDS], cfg, batchGetItem, delayDraw, faultDraw)
  {
    if PRODUCT_IDS in event then GetProductInfos(event[PRODUCT_IDS], cfg, batchGetItem, delayDraw, faultDraw)
    else Delayed(Raised(KeyError(PRODUCT_IDS)), 0.0)
  }

  /** Without an injected fault (and with a sleep that does not itself raise),
      the handler returns exactly the table's items from the DynamoDB response. */
  lemma HandlerPassThrough(event: map<string, seq<string>>, cfg: Config, batchGetItem: BatchGetRequest -> Outcome<BatchGetResponse>,
                           delayDraw: Draw, faultDraw: Draw, response: BatchGetResponse)
    requires PRODUCT_IDS in event
    requires batchGetItem(BatchRequest(cfg.tableName, event[PRODUCT_IDS])) == Returned(response)
    requires cfg.tableName in response.responses
    requires !FaultFires(faultDraw, cfg.fault)
    requires !(DelayFires(delayDraw, cfg.delay) && cfg.delay.delayMs < 0)
    ensures LambdaHandler(event, cfg, batchGetItem, delayDraw, faultDraw).value == Returned(response.responses[cfg.tableName])
  {
  }

  /** When the query succeeds and both injectors trigger, the delay is slept
      first and then the computed items are discarded for the fault. */
  lemma DelayThenFault(ids: seq<string>, cfg: Config, batchGetItem: BatchGetRequest -> Outcome<BatchGetResponse>,
                       delayDraw: Draw, faultDraw: Draw)
    requires QueryBlock(ids, cfg.tableName, batchGetItem).Returned?
    requires DelayFires(delayDraw, cfg.delay) && cfg.delay.delayMs >= 0
    requires FaultFires(faultDraw, cfg.fault)
    ensures GetProductInfos(ids, cfg, batchGetItem, delayDraw, faultDraw)
            == Delayed(Raised(Exception(FAULT_MESSAGE)), cfg.delay.delayMs as real / 1000.0)
  {
  }

  /** A sleep that raises is an exception leaving the delay manager, so the
      fault manager only passes it on: no fault is drawn for it. */
  lemma RaisingSleepBypassesFault(ids: seq<string>, cfg: Config, batchGetItem: BatchGetRequest -> Outcome<BatchGetResponse>,
                                  delayDraw: Draw, faultDraw: Draw)
    requires QueryBlock(ids, cfg.tableName, batchGetItem).Returned?
    requires DelayFires(delayDraw, cfg.delay) && cfg.delay.delayMs < 0
    ensures GetProductInfos(ids, cfg, batchGetItem, delayDraw, faultDraw) == Delayed(Raised(ValueError(Chaos.NEGATIVE_SLEEP)), 0.0)
  {
  }
}
