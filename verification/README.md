# java2uml-api-wrapper: the client protocol in Dafny

This project models the client side of the Java2UML API wrapper. The client
uploads a Java source archive to a Java2UML server. It then asks for the
project record, the parsed source, the PlantUML text and the class diagram.
Several of these are computed asynchronously: while the server is still
working, a GET answers HTTP 202, and the client retries it.

The model covers the following parts of the wrapper:

- **The status classifier** (`validateStatus`). Status 202 rejects the request. Any other status resolves it exactly when it is below 400.
- **The client's state.** This is the bound project id and the cached source id. Every operation is a pure function that takes the state and gives back:
  - the new state;
  - the value returned or the error thrown;
  - the requests and sleeps it made, in order.
- **The operations:**
  - `upload` and `getProjectInfo`;
  - `getSource`, `getPlantUMLCode` and `getUMLSvg`, each with its 202 retry;
  - `getClassOrInterfaces` and `getSourceIfNull`;
  - `assertThatProjectIdIsNotNull`;
  - the retry loop `handle202`, written both as a function and as a `while` loop proved equal to it.
- **`normalizer.normalizeToProjectInfo`**: the mapping from a response body to the typed project record.
- **`extractIdFrom`**, the test helper that reads the id at the end of a hypermedia link.

The network is an oracle, `net: nat -> Exchange`. During one operation, the k-th request is answered by `net(k)`. The answer is either a reply (status and decoded body) or no reply at all.

Values the server sends are JavaScript values (`Js.Json`). `undefined` and `null` are kept apart, because the code tests them both ways:
- `=== null` is strict: `assertThatProjectIdIsNotNull` and the URI choice of `getSource` use it;
- `!= null` is loose: `getSourceIfNull` uses it.

A thrown value is an `Http.Error`:
- an Axios error, with or without a response;
- a `TypeError` from reading a property of `null` or `undefined`;
- the missing-project error;
- the missing-id error of `extractIdFrom`.

Modules:
- `Results`: Option and Result.
- `Js`: JavaScript values and property reads.
- `Http`:
  - the transport;
  - status classification;
  - requests and the events log.
- `Normalizer`: the project-record mapping.
- `Poller`: handle202.
- `LinkId`: extractIdFrom.
- `Java2Uml`: the client and its operations.

The model follows the code in these details:

- **Retry count.** A call whose first GET answers 202 makes up to `retryLimit` more GETs, so up to `retryLimit + 1` in all. With every reply 202 and `retryLimit = 3`, the model makes four GETs (`Java2Uml.SvgNeverReady`), not three.
- **When the client sleeps.** It does not sleep between the first GET and the first retry. It does sleep after every retry that threw, including the last one. `Java2Uml.SvgReadyOnThirdRequest` shows a run with three GETs and one sleep.
- **What ends the retry loop.** A retry returns only on status exactly 200. A resolved reply with any other status below 400 (204, 301, …) uses up an attempt without a sleep.
- **Errors inside a retry.** An error thrown while normalizing a retried reply is caught by the loop like a rejected request: the loop sleeps and tries again.
- **`getSource` retries.** They always go to the by-project-info URI, even when the first GET went by source id.

## Model

| member | source | states |
|---|---|---|
| Http.Settle | src/controllers/Java2UMLImpl.ts:36-39 | A request resolves exactly when a reply arrived whose status is not 202 and is below 400, and then with that reply. Otherwise it rejects with an Axios error that carries the reply, or no response when nothing arrived. |
| Http.NotReadyExactlyOn202 | src/controllers/Java2UMLImpl.ts:36-39 | The retry guard `e.response && e.response.status == 202` holds of a settled request exactly when the server replied 202. |
| Normalizer.NormalizeToProjectInfo | src/utils/Normalizer.ts:14-27 | It throws a TypeError exactly when the body is null or undefined. Otherwise `id`, `projectName`, `size`, `fileType`, `messages` and `_links` are the wire properties of the same name, `isBadRequest` is the wire `badRequest`, and `isParsed` is the wire `parsed`. |
| Normalizer.NormalizeWireRoundTrip | src/utils/Normalizer.ts:15-26 | Normalizing the server's wire form of any record gives that record back, with every field and the links preserved, whatever the status. |
| Normalizer.NormalizeIgnoresExtraFields | src/utils/Normalizer.ts:14-27 | Body properties outside the eight it reads are dropped. |
| Normalizer.OnlyWireKeysMatter | src/utils/Normalizer.ts:14-27 | The result depends on the body's eight wire properties and nothing else: not the status, not other properties. |
| Poller.TryOnceOutcomes | src/controllers/Java2UMLImpl.ts:172-178 | One loop pass returns exactly on a 200 reply that normalizes, and returns its normalization. It passes without throwing exactly on a resolved reply other than 200. No reply, or a 202, always throws. |
| Poller.PollFromReturnsFirst | src/controllers/Java2UMLImpl.ts:171-179 | When the loop returns, the value is that of the first attempt that returns, after the earlier attempts were logged. |
| Poller.PollFromExhausts | src/controllers/Java2UMLImpl.ts:171-181 | When the loop throws, no remaining attempt returned and every one was logged. |
| Poller.PollFromAllThrow | src/controllers/Java2UMLImpl.ts:171-181 | When every remaining attempt throws, the loop makes each GET followed by a sleep, then throws `e`. |
| Poller.Handle202 | src/controllers/Java2UMLImpl.ts:170-182 | A failing handle202 throws the original error `e`. With `retry <= 0` it makes no request and throws `e`. |
| Poller.Handle202Spec | src/controllers/Java2UMLImpl.ts:170-182 | It returns exactly when one of the `retry` attempts returns, with the first such value. It makes at most `retry` GETs, and every event is a GET of the same URI or a sleep. On failure it logs every attempt. |
| Poller.Handle202AllThrow | src/controllers/Java2UMLImpl.ts:171-181 | When every attempt throws, it makes `retry` GETs and `retry` sleeps and throws `e`. |
| Poller.AttemptsLogCounts | src/controllers/Java2UMLImpl.ts:173-177 | The loop's log has one GET per attempt and one sleep per attempt that threw, and nothing else. |
| Poller.Handle202Loop | src/controllers/Java2UMLImpl.ts:170-182 | The `for` loop over the scripted replies returns the same result and makes the same requests and sleeps as `Handle202`. |
| LinkId.LastSegment | test/j2uTestUtils.ts:26 | `split('/').pop()`: the result holds no '/', ends the link, and is the whole link or follows a '/'. |
| LinkId.ParseLeadingInt | test/j2uTestUtils.ts:26 | `parseInt` gives NaN exactly when no digit follows the optional sign. A negative result comes only from a leading '-'. |
| LinkId.ExtractIdFrom | test/j2uTestUtils.ts:25-30 | It throws 'Id is not present.' exactly when the last segment does not start with an integer. |
| LinkId.ParseIntToString | test/j2uTestUtils.ts:26 | `parseInt` reads back the decimal form of any integer, whatever non-digit text follows it. |
| LinkId.LastSegmentAfterSlash | test/j2uTestUtils.ts:26 | The last segment of `p + "/" + s` is `s` when `s` holds no '/'. |
| LinkId.ExtractIdRoundTrip | test/j2uTestUtils.ts:25-30 | For any prefix and integer `n`, followed by a tail with no '/' that does not start with a digit, the link yields `n`. |
| LinkId.TrailingSlashRejected | test/j2uTestUtils.ts:26-27 | A link ending in '/' is always rejected. |
| LinkId.NoSlashParsedWhole | test/j2uTestUtils.ts:26 | A link with no '/' is parsed as a whole. |
| LinkId.ParseDigitsThen | test/j2uTestUtils.ts:26 | `parseInt` of any non-empty digit run followed by text that does not start with a digit is the value of the whole run. |
| LinkId.LeadingZerosValue | test/j2uTestUtils.ts:26 | Zeros in front of a digit string do not change its value. |
| LinkId.LeadingZerosIgnored | test/j2uTestUtils.ts:26 | Any run of zeros, then the decimal digits of `n`, then a non-digit tail, reads as `n`. For example, "007" reads as 7. |
| LinkId.PlusSignIgnored | test/j2uTestUtils.ts:26 | A '+' in front of a digit does not change what `parseInt` reads. |
| LinkId.MinusSignNegates | test/j2uTestUtils.ts:26 | A '-' in front of a digit negates what `parseInt` reads. |
| LinkId.ExtractIdFromGetUri | src/controllers/Java2UMLImpl.ts:17-23 | For every endpoint path of the client and every integer id, `extractIdFrom` reads the id back from the URI `PATH/id`. |
| Java2Uml.AssertProjectIdNotNull | src/controllers/Java2UMLImpl.ts:192-196 | It fails exactly when the project id is `null`, with the missing-project error. Otherwise it gives the bound id. |
| Java2Uml.Upload | src/controllers/Java2UMLImpl.ts:52-68 | One POST. It succeeds exactly when the request resolves with a body that is neither null nor undefined. On success it binds the normalized reply's id, clears the cached source id, and returns the normalized reply. On failure the state is unchanged, and the Axios error is rethrown, or a TypeError when the body could not be read. |
| Java2Uml.GetProjectInfo | src/controllers/Java2UMLImpl.ts:71-81 | With no project bound it throws without a request. Otherwise it makes one GET of the project record and returns its normalization. The state never changes. |
| Java2Uml.GetSource | src/controllers/Java2UMLImpl.ts:83-108 | It fails fast with no project bound. It makes at most `1 + retryLimit` GETs: the first chosen by the cache, every retry by project. Success or a non-202 error on the first GET ends the call. After a first 202, it succeeds exactly when one of the `retryLimit` retries returns, with the first such value, after logging the earlier retries. Otherwise it logs every retry. Any error thrown is the first one. A retried source's id is cached. The project id never changes. |
| Java2Uml.SourceFirstReplyCachesId | src/controllers/Java2UMLImpl.ts:89-96 | The first GET goes by project id exactly when the cached source id is `null`. A resolved reply caches its body's `id` and its normalization is returned after one request. |
| Java2Uml.SourceRetryCachesId | src/controllers/Java2UMLImpl.ts:97-102 | After a 202, a successful retry goes to the by-project-info URI. The returned source's id is cached. |
| Java2Uml.Retry202 | src/controllers/Java2UMLImpl.ts:135-136 | After a first 202, it succeeds exactly when one of the `retryLimit` retries returns (retry j, counting from 0, is answered by reply j + 1 of the operation), with the first such value. Otherwise it throws the first error and logs every retry. It makes at most `1 + retryLimit` GETs, every retry of the same URI. |
| Java2Uml.FetchRetrying202 | src/controllers/Java2UMLImpl.ts:130-140 | A first GET followed only by GETs of the same URI or sleeps, at most `1 + retryLimit` GETs. A first success or a non-202 first error ends the call after one request. After a first 202, it succeeds exactly when one of the `retryLimit` retries returns, with the first such value, after logging the earlier retries. Any error thrown is the first one. |
| Java2Uml.GetPlantUmlCode | src/controllers/Java2UMLImpl.ts:110-124 | With the catch guard corrected: it fails fast with no project bound, and otherwise behaves as `FetchRetrying202` on the PlantUML URI. The state is unchanged. |
| Java2Uml.GetPlantUmlCodeAsWritten | src/controllers/Java2UMLImpl.ts:110-124 | As written: when the first error carries no response, the catch block itself throws a TypeError after one request. |
| Java2Uml.PlantUmlNoReplyBecomesTypeError | src/controllers/Java2UMLImpl.ts:117-119 | With no reply to the first GET, the code as written throws a TypeError. The corrected guard rethrows the transport error. |
| Java2Uml.PlantUmlAgreesWithResponse | src/controllers/Java2UMLImpl.ts:117-122 | When the first GET succeeds, or fails with an error that carries a response, the code as written and the corrected guard behave identically. |
| Java2Uml.GetUmlSvg | src/controllers/Java2UMLImpl.ts:127-141 | It fails fast with no project bound. Otherwise it behaves as `FetchRetrying202` on the diagram URI, returning the body as it is. The state is unchanged. |
| Java2Uml.GetSourceIfNull | src/controllers/Java2UMLImpl.ts:213-216 | It does nothing when a non-nullish source id is cached. Otherwise it has the state, events and outcome of `getSource` with the default limit of 10. |
| Java2Uml.GetClassOrInterfaces | src/controllers/Java2UMLImpl.ts:143-153 | It first runs `getSourceIfNull` and throws its error when that fails. Otherwise it keeps that state, makes one GET by the resulting source id, answered by the next reply, and returns its normalization. With a source id cached, that is its only request. The project id never changes. |
| Java2Uml.OperationsPreserveCoherence | src/controllers/Java2UMLImpl.ts:61-62 | No operation leaves a source id cached without a bound project. |
| Java2Uml.FreshClientFailsFast | test/Java2UMLImpl.test.ts:75-84 | On a new client, every project-scoped operation throws the missing-project error without a request. |
| Java2Uml.UploadBindsServerRecord | test/Java2UMLImpl.test.ts:17-22 | An upload answered with a record's wire form returns that record, binds its id and clears the source cache. |
| Java2Uml.UploadThenRequestsTargetProject | src/controllers/Java2UMLImpl.ts:61-62 | After an upload that bound a non-null id, `getProjectInfo`, `getSource` and `getUMLSvg` address that id. `getSource` looks it up by project. |
| Java2Uml.SourceIfNullSettles | src/controllers/Java2UMLImpl.ts:213-216 | Once a non-nullish source id is cached, `getSourceIfNull` does nothing. |
| Java2Uml.SvgReadyOnThirdRequest | src/controllers/Java2UMLImpl.ts:127-141 | Replies 202, 202, 200 with `retryLimit = 5` give three GETs, one sleep, and the diagram. |
| Java2Uml.SvgNeverReady | src/controllers/Java2UMLImpl.ts:127-141 | Replies that are all 202, with `retryLimit = 3`, give four GETs and three sleeps, then rethrow the first 202 error. |

## Left out

- The axios instance's configuration is out: base URL, timeout, headers, body-size limits. Only `validateStatus` is kept. The network is the oracle `net`.
- The upload body is out: the multipart `FormData` built from a file or stream, and the `onProgress` callback. The upload is the request `PostFile`.
- Sleep is modelled only as an event. The 500 ms delay is not, nor is any interleaving of concurrent calls on one client. Two concurrent calls may race on the source id, and that is not modelled.
- Logging is out: `logError`, the retry-attempt log line, and the logger configuration. It has no effect on results or state.
- The operations the `Java2UML` interface declares but the client does not implement are not modelled. These include enums, relations, methods, bodies, call graphs and delete.
- `normalizeToSource`, `normalizeToUMLBody` and `normalizeToClassOrInterfaceList` are opaque. They are not defined in `src/utils/Normalizer.ts`, so the operations take them as parameters, and they may throw.
- Numbers are integers, so `Js.Json` has no fractions. `retryLimit` is an integer, so a fractional or `NaN` retry limit is not modelled.
- `extractIdFrom` models `parseInt` for an optional sign and decimal digits only. Not modelled:
  - the skipping of leading whitespace;
  - the `0x` prefix;
  - `-0`;
  - precision loss beyond 2^53.
- Property reads model only the own properties of a decoded object. A built-in property of a string or array body (such as `length`) is read as `undefined`. The client reads none of these.

## Findings

| source | as written | input that shows it | evidently intended | confidence | as-written member | corrected member |
|---|---|---|---|---|---|---|
| src/controllers/Java2UMLImpl.ts:118 | The catch block of `getPlantUMLCode` reads the status of `e.response` without checking that a response exists. The catch blocks of `getSource` (line 98) and `getUMLSvg` (line 135) do check. | A bound project and a first GET that gets no reply (connection refused or timeout). The call throws a TypeError from reading `status` of `undefined`, and the transport error is lost and never logged. | Guard like lines 98 and 135: retry only on a 202 response, and rethrow every other error unchanged. | high; not executed | Java2Uml.GetPlantUmlCodeAsWritten (shown by Java2Uml.PlantUmlNoReplyBecomesTypeError) | Java2Uml.GetPlantUmlCode |
