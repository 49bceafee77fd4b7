# Chaos-injected product services, modelled in Dafny

The repository is a demonstration of OpenTelemetry tracing. It has two parts:

- a set of small product services. An info service is backed by Redis, a price service by MySQL, and an API gateway joins the two.
- an AWS Lambda that reads product infos from DynamoDB.

The info service, the price service and the Lambda wrap their database access in a chaos injector; the gateway has none. `fault_injection` raises an exception after a successful block. `delay_injection` sleeps after a successful block. Both fire only when a draw from 1 to 100 is at most a configured rate and injection is enabled.

This project models the decision and merge logic of those services:

- `outcomes.dfy` (module `Outcomes`): how a Python block ends, as a value or an exception. It also holds the exceptions the code can raise, `str(e)` of each, and HTTP replies as a status plus a decoded JSON body.
- `chaos.dfy` (module `Chaos`): the code after `yield` in the two context managers, as functions of how the wrapped block ended.
  - The random draw is a parameter.
  - `time.sleep` becomes a returned latency in seconds.
  - The block's exception passes through untouched, because a generator-based context manager never reaches its post-`yield` code when the block raises.
- `info_service.dfy` (module `InfoService`): the Redis key builder, `ProductInfo` validation, and both handlers of the info service with their 200/404/500 mapping. The scan-and-append loop of the list handler is a method proved against a reference function.
- `price_service.dfy` (module `PriceService`): the `value` validator, `ProductPrice` validation, and both handlers of the price service under the delay injector.
- `gateway.dfy` (module `Gateway`), the gateway's three routes:
  - `list_product_ids`.
  - `get_product`: the status checks in order, then the merge.
  - `list_products`: the status checks, the length check, the two id-keyed dicts built by comprehension (a dict is insertion-ordered keys plus entries), and the join loop. The join loop is a method proved against a reference join.
- `lambda_service.dfy` (module `LambdaService`): the Lambda's two injectors, the DynamoDB key list, the `with (fault_injection(...), delay_injection())` composition, and `lambda_handler`.

External systems become inputs:

- Redis is its scan order plus a map from key to hash.
- A MySQL query is the outcome it ended with.
- The DynamoDB client is a function from request to outcome.
- The two upstream replies of the gateway are given.

Where the code's evident intent and its behaviour differ, the model follows the behaviour:

- A price row with a non-numeric `value` raises a validation error (so 500). The validator's name, `convert_non_compatible_to_zero` (`grafana-otel-example/product-price-querier/src/main.py:38-39`), says it should become 0.0. See Findings.
- `GET /products/infos/{id}` for an absent product answers 500. The handler's own 404 branch (`grafana-otel-example/product-info-querier/src/main.py:102-103`) is never reached. See Findings.
- An info id with no price row in `list_products` is an uncaught `KeyError` (so 500). It is not the gateway's "Mismatch in product info and price data" reply, which only a length difference produces.
- The gateway checks info's status first, then price's, so a failing info reply wins when both fail.

## Model

| member | source | states |
|---|---|---|
| Chaos.FaultExit | grafana-otel-example/product-info-querier/src/main.py:42-48 | A block that raised is passed on unchanged. After a normal exit the result is raised exactly when `draw <= rate` and the injector is enabled. The injected error is `Exception(message)`. Otherwise the block's value is untouched. |
| Chaos.Triggers | grafana-otel-example/product-info-querier/src/main.py:45-46 | A disabled injector never fires. An enabled one at rate 100 always fires. No draw fires at a rate below 1. |
| Chaos.DelayExit | grafana-otel-example/product-price-querier/src/main.py:43-49 | After a raise, nothing is slept. The value is never changed. A latency is added only when the draw triggers after a normal exit, and it is exactly `ms / 1000` seconds. A negative duration makes the sleep raise `ValueError`. |
| Chaos.FullRateAlwaysFaults | grafana-otel-example/product-info-querier/src/main.py:45-48 | When enabled at rate 100, every successful block becomes the injected fault. |
| Chaos.LowRateNeverFaults | grafana-otel-example/product-info-querier/src/main.py:45-46 | At a rate below 1 no draw triggers, so the outcome is unchanged. |
| Chaos.FullRateAlwaysDelays | grafana-otel-example/product-price-querier/src/main.py:46-49 | When enabled at rate 100 with `ms >= 0`, every successful block is delayed by `ms / 1000` seconds and keeps its value. |
| InfoService.ProductKey | grafana-otel-example/product-info-querier/src/main.py:60-61 | The key is `"product:"` followed by exactly the product id. |
| InfoService.ProductKeyInjective | grafana-otel-example/product-info-querier/src/main.py:60-61 | Two ids have the same key if and only if they are equal. |
| InfoService.DecodeInfo | grafana-otel-example/product-info-querier/src/main.py:30-38 | `ProductInfo(**hash)` fails with a `ProductInfo` validation error when one of the eight fields is missing. When all are present it copies each of them into the record, keeping `stars` and `reviews_count` as their text. |
| InfoService.HGetAll | grafana-otel-example/product-info-querier/src/main.py:98 | `hgetall` returns the hash stored under the key, and an empty hash (not an error) for a key that does not exist. |
| InfoService.ScanProducts | grafana-otel-example/product-info-querier/src/main.py:73 | `scan_iter("product:*")` yields exactly the stored keys carrying the prefix, and never more keys than are stored. |
| InfoService.LookupKeys | grafana-otel-example/product-info-querier/src/main.py:73-74 | The list handler looks up, for each scanned key in order, `get_redis_product_key` of that key. |
| InfoService.FetchAll | grafana-otel-example/product-info-querier/src/main.py:72-74 | Loading keys in turn succeeds if and only if every hash validates. It then gives one info per key, in key order. Otherwise it gives the validation error. |
| InfoService.LoadScanned | grafana-otel-example/product-info-querier/src/main.py:72-74 | The append loop builds exactly the reference list of loaded infos, or stops with its first error. |
| InfoService.ListBody | grafana-otel-example/product-info-querier/src/main.py:71-74 | An unreachable server raises its client error. Otherwise the block succeeds exactly when the hash under the re-prefixed key of every scanned key validates. It then gives one info per scanned key, in scan order. Otherwise it gives the validation error. |
| InfoService.ListReply | grafana-otel-example/product-info-querier/src/main.py:75-84 | The answer is 200 with the infos exactly when the block returned some and no fault fired. It is 404 "No products found" exactly when the block returned none and no fault fired. A raised block gives 500 with `str(e)`, and an injected fault gives 500 "Database connection failed". |
| InfoService.ListProductInfos | grafana-otel-example/product-info-querier/src/main.py:63-84 | `GET /products/infos` answers what the reference reply gives for the reference block: the block, then the fault exit, then the 200/404/500 mapping. |
| InfoService.ListFound | grafana-otel-example/product-info-querier/src/main.py:75-79 | Without a fault, a non-empty result is 200 with the infos in scan order. An empty result is 404 "No products found". |
| InfoService.ListFailure | grafana-otel-example/product-info-querier/src/main.py:80-84 | An exception in the block becomes 500 with `str(e)`. An injected fault becomes 500 "Database connection failed". |
| InfoService.ListLooksUpDoublePrefix | grafana-otel-example/product-info-querier/src/main.py:73-74 | Every key the list handler looks up starts with `"product:product:"`. |
| InfoService.ListIntendedFindsStored | grafana-otel-example/product-info-querier/src/main.py:72-74 | With the lookup as intended, a store whose product keys all hold valid hashes is listed in full, in scan order. |
| InfoService.ListDoublePrefixCounterexample | grafana-otel-example/product-info-querier/src/main.py:73-74 | One complete product under `product:1`: the code as written answers 500 with a validation error. The intended lookup answers 200 with that product. |
| InfoService.ItemBody | grafana-otel-example/product-info-querier/src/main.py:97-98 | An unreachable server raises its client error. Otherwise the block is exactly `ProductInfo(**hgetall("product:<id>"))`: it succeeds when that hash has every field, with the decoded record, and raises a validation error otherwise. |
| InfoService.GetProductInfo | grafana-otel-example/product-info-querier/src/main.py:87-108 | The answer is 200 exactly when the block and the fault exit both succeed, and it carries the decoded info. Every other answer is 500. A failing block answers `str(e)`, and an injected fault answers "Database connection failed". |
| InfoService.GetProductInfoIntended | grafana-otel-example/product-info-querier/src/main.py:99-103 | An empty hash with no fault answers 404 "Product not found". A non-empty hash is answered as the code does. |
| InfoService.ItemMissingCounterexample | grafana-otel-example/product-info-querier/src/main.py:98-103 | With no product stored, the code as written answers 500 "validation error for ProductInfo". The intended handler answers 404. |
| PriceService.ConvertNonCompatibleToZero | grafana-otel-example/product-price-querier/src/main.py:37-39 | The result is always an int or a float. An int or float is kept. Anything else becomes 0.0. |
| PriceService.CoerceFloat | grafana-otel-example/product-price-querier/src/main.py:35 | pydantic's float parsing fails exactly for a non-numeric value, and reads an int or float as its number. |
| PriceService.ValidateValue | grafana-otel-example/product-price-querier/src/main.py:35-39 | The "after" validator never changes pydantic's result, so a non-numeric value raises a validation error. |
| PriceService.IntendedValue | grafana-otel-example/product-price-querier/src/main.py:37-39 | As intended, a non-numeric value gives 0.0, and every other value agrees with the code as written. |
| PriceService.DecodePrice | grafana-otel-example/product-price-querier/src/main.py:32-39 | `ProductPrice(**row)` fails exactly when the value fails validation. It otherwise keeps the id and currency and takes the validated value. |
| PriceService.DecodePriceIntended | grafana-otel-example/product-price-querier/src/main.py:32-39 | It keeps the id and currency, gives 0.0 for a non-numeric value, and agrees with the code wherever the code succeeds. |
| PriceService.NonNumericValueCounterexample | grafana-otel-example/product-price-querier/src/main.py:37-39 | A row valued "N/A": the code as written answers 500 "validation error for ProductPrice". The intended decoding gives value 0.0. |
| PriceService.DecodeAll | grafana-otel-example/product-price-querier/src/main.py:108 | The list comprehension succeeds if and only if every row validates. It then gives one price per row, in row order. |
| PriceService.ItemReply | grafana-otel-example/product-price-querier/src/main.py:74-83 | A query exception gives 500 with `str(e)`. No row gives 404 "Product not found". The answer is 200 exactly when a row is found and validates, and it carries that price. A found row that fails validation gives 500 with `str(e)` of the validation error. |
| PriceService.GetProductPrice | grafana-otel-example/product-price-querier/src/main.py:52-83 | The delay never changes the reply, only its latency: unless a triggered negative duration makes the sleep raise, the reply is the one for the query's outcome. The latency is `ms / 1000` exactly when the draw triggers after a successful query. A failing query answers 500 without delay. A triggered negative duration answers 500 with the sleep's error. |
| PriceService.ListReply | grafana-otel-example/product-price-querier/src/main.py:106-115 | A query exception gives 500 with `str(e)`. No rows gives 404 "No products found". The answer is 200 exactly when there are rows and all validate, with one price per row in row order. Rows of which one fails validation give 500 with `str(e)` of the validation error. |
| PriceService.ListProductPrices | grafana-otel-example/product-price-querier/src/main.py:86-115 | The same delay contract as `GetProductPrice`. A triggered negative duration answers 500 with the sleep's error. |
| Gateway.Merge | grafana-otel-example/api-gateway/src/main.py:104-108 | The product takes currency and value from the price, and every other field from the info. |
| Gateway.ListProductIds | grafana-otel-example/api-gateway/src/main.py:51-78 | It answers 200 with each row's `product_id` in row order. A database error is uncaught. |
| Gateway.GetProduct | grafana-otel-example/api-gateway/src/main.py:80-115 | A non-2xx info reply is forwarded whatever price returned. Otherwise a non-2xx price reply is forwarded. The gateway answers 200 with the merge exactly when both succeed with data. |
| Gateway.GetProductPriceNotFound | grafana-otel-example/api-gateway/src/main.py:98-99 | Info 200 with price 404 answers the price service's 404 and body. |
| Gateway.Ids | grafana-otel-example/api-gateway/src/main.py:143 | The ids of the rows, one per row, in row order. |
| Gateway.Distinct | grafana-otel-example/api-gateway/src/main.py:143 | The dict's keys have the same elements as the ids, no duplicates, and are no more numerous. |
| Gateway.DistinctOfDistinct | grafana-otel-example/api-gateway/src/main.py:143 | Ids without duplicates become the dict's keys unchanged. |
| Gateway.DistinctFirstOccurrenceOrder | grafana-otel-example/api-gateway/src/main.py:143 | The keys are ordered by first occurrence in the rows. |
| Gateway.LastWith | grafana-otel-example/api-gateway/src/main.py:143-144 | There is a row for an id exactly when the id occurs, and the row found carries it. |
| Gateway.LastWithIsLast | grafana-otel-example/api-gateway/src/main.py:143-144 | The row kept for an id is the last row carrying it: later duplicates overwrite. |
| Gateway.DictOf | grafana-otel-example/api-gateway/src/main.py:143-144 | The comprehension's keys are the distinct ids in first-occurrence order. Its entries cover exactly the ids, each holding the last row with that id. |
| Gateway.JoinIds | grafana-otel-example/api-gateway/src/main.py:146-153 | The reference join succeeds if and only if every id has a price. It then holds one merged product per id, in id order. Otherwise it names an id without a price. |
| Gateway.JoinIdsFirstMissing | grafana-otel-example/api-gateway/src/main.py:147-148 | The join stops at the first id without a price. |
| Gateway.JoinLoop | grafana-otel-example/api-gateway/src/main.py:143-153 | Building the two dicts and running the append loop over the info dict's keys gives exactly the reference join over the distinct info ids. |
| Gateway.ListProductsSpec | grafana-otel-example/api-gateway/src/main.py:119-161 | Info's failure is forwarded first, then price's. Lists of different lengths answer 500 "Mismatch in product info and price data" and never a partial list. The gateway's own answers are only the mismatch and a 200 list. |
| Gateway.BodyLen | grafana-otel-example/api-gateway/src/main.py:140 | `len(json)` of a decoded body: the number of elements of a list, and 1 for a `{"message": ...}` object. |
| Gateway.ListProducts | grafana-otel-example/api-gateway/src/main.py:119-161 | The handler's statements give exactly `ListProductsSpec`. |
| Gateway.ListProductsJoin | grafana-otel-example/api-gateway/src/main.py:143-155 | On success: one product per distinct info id, in first-occurrence order. Currency and value come from the last price row of the id, and every other field from its last info row. |
| Gateway.ListProductsLength | grafana-otel-example/api-gateway/src/main.py:143-147 | A successful answer has at most as many products as info rows, and exactly as many when the info ids are distinct. |
| Gateway.ListProductsMissingPrice | grafana-otel-example/api-gateway/src/main.py:148-161 | An info id without any price row gives an uncaught `KeyError` for such an id, never a product without a price. |
| LambdaService.FaultInjection | aws-lambda-adot-example/lambda/src/main.py:12-18 | It raises `Exception(error_message)` exactly when the block succeeded, `draw <= FAULT_PERCENTAGE` and the injector is enabled. Otherwise a successful block comes back unchanged. A block that raised is passed on. |
| LambdaService.DelayInjection | aws-lambda-adot-example/lambda/src/main.py:20-26 | It sleeps `DELAY_MS / 1000` seconds exactly when the block succeeded, the draw fires and the duration is non-negative. A draw that does not fire sleeps nothing and passes the outcome on. The value is never changed. A firing negative duration raises and sleeps nothing. |
| LambdaService.BatchKeys | aws-lambda-adot-example/lambda/src/main.py:35 | There is one key per id, in id order, each being `{"product_id": {"S": id}}`. |
| LambdaService.BatchRequest | aws-lambda-adot-example/lambda/src/main.py:36-42 | The request asks only the configured table, for one `{"product_id": {"S": id}}` key per id, in id order. |
| LambdaService.QueryBlock | aws-lambda-adot-example/lambda/src/main.py:35-43 | A failing call propagates. The block returns exactly the response's items for the table when the table is present. |
| LambdaService.GetProductInfos | aws-lambda-adot-example/lambda/src/main.py:29-43 | A failing query is passed on with no delay and no fault. The latency is `DELAY_MS / 1000` exactly when the query succeeded and the delay draw fires with a non-negative duration, whatever the fault draw. Unless the sleep raised, the fault replaces the result exactly when its draw fires, and otherwise the table's items reach the caller unchanged. A raising sleep passes through the fault injector. |
| LambdaService.LambdaHandler | aws-lambda-adot-example/lambda/src/main.py:45-49 | It passes `event["product_ids"]` to the query and returns its result. A missing key raises `KeyError`. |
| LambdaService.HandlerPassThrough | aws-lambda-adot-example/lambda/src/main.py:43-49 | Without an injected fault and without a raising sleep, the handler returns exactly `response["Responses"][TABLE_NAME]`. |
| LambdaService.DelayThenFault | aws-lambda-adot-example/lambda/src/main.py:31-43 | When both injectors fire, the delay is slept and then the computed items are discarded for the fault. |
| LambdaService.RaisingSleepBypassesFault | aws-lambda-adot-example/lambda/src/main.py:31-34 | A sleep that raises reaches the fault injector as an exception, so no fault replaces it. |

## Left out

- HTTP transport and the concurrency of `asyncio.gather` in the gateway. The upstream replies are inputs.
- Transport-level failures of `httpx` (connection errors). They are not status errors, so they escape the gateway's handlers. The model only takes replies that arrived.
- Logging, tracing spans and the OpenTelemetry setup (`otel_instrumentation.py`). They have no effect on the results.
- Configuration loading from the environment (all `config.py` files). Settings are parameters. Values that fail to parse are not modelled.
- The traffic generator (`grafana-otel-example/traffic_generator.py`). It is a load-testing script with threads and an endless loop.
- `random.randint` is a parameter. The model does not track that a draw is consumed even when the injector is disabled.
- pydantic coercion of the price `value` beyond numeric and non-numeric. Values are reals, and IEEE float arithmetic is not modelled.
- InfoService.DecodeInfo: it does not check that `stars` parses as a float and `reviews_count` as an int (`grafana-otel-example/product-info-querier/src/main.py:35-36`). A hash with all eight fields but `stars` "abc" decodes in the model, where pydantic raises and the handler answers 500. Both fields are kept as opaque text.
- The text of a pydantic `ValidationError`. `str(e)` is modelled as "validation error for" followed by the model name.
- JSON serialisation of replies (`model_dump`, `JSONResponse`). Bodies are decoded values.
- Gateway.ListProductIds: the `httpx.HTTPStatusError` handler (lines 73-78) can never run, because nothing in its block raises that error. It is left out as dead code.
- Redis connection creation and SCAN cursoring. A server that cannot be reached is `Unreachable`. A failure midway through the scan is not modelled.
- LambdaService.GetProductInfos: creating the boto3 client (line 30) happens outside both injectors. Its failure is not modelled. A response without a `Responses` key is not modelled either.

## Findings

| source | as written | input that shows it | evidently intended | confidence | as-written member | corrected member |
|---|---|---|---|---|---|---|
| grafana-otel-example/product-info-querier/src/main.py:73-74 | Scanned keys already start with `product:` and are prefixed once more before `hgetall`. | Redis holds one complete hash under `product:1`: the lookup of `product:product:1` gives an empty hash, and the list answers 500. | Each scanned key is looked up as it is, and the product is listed with 200. | high (not executed) | InfoService.ListDoublePrefixCounterexample | InfoService.ListIntendedFindsStored |
| grafana-otel-example/product-info-querier/src/main.py:98-103 | An absent product gives an empty hash, which fails validation. `if product_info:` is always true for a pydantic model, so the 404 branch is unreachable. | No product stored: the answer is 500 "validation error for ProductInfo". | An absent product answers 404 "Product not found". | high (not executed) | InfoService.ItemMissingCounterexample | InfoService.GetProductInfoIntended |
| grafana-otel-example/product-price-querier/src/main.py:37-39 | `field_validator` runs after pydantic's float parsing, so a non-numeric value raises before the validator sees it. The 0.0 branch is dead. | A row with value "N/A": the answer is 500 "validation error for ProductPrice". | A non-numeric value becomes 0.0. | high (not executed) | PriceService.NonNumericValueCounterexample | PriceService.DecodePriceIntended |
