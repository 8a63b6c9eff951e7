# swervpay-go request core, modelled in Dafny

swervpay-go is a Go client for the Swervpay payments API. The resource
wrappers (bills, cards, customers and so on) share two steps. First they build
a path with `GenerateURLPath`. Then they hand the path to
`SwervpayClient.NewRequest` and `SwervpayClient.Perform`. This project models
those steps and proves what they promise:

- `NewRequest` resolves the path against the base URL. It JSON-encodes the
  parameters when there are any. It then fills the header map with Go's
  `http.Header` `Set`/`Add` semantics, including the canonical form of header
  names.
- `Perform` classifies the transport outcome and the status code. It then
  hands the body to the caller's destination: nothing, an `io.Writer`, or a
  JSON target.
- `handleError` turns a failed response into an error message.
- `GenerateURLPath` turns the integer fields of a query struct into a sorted,
  `&`-joined `key=value` query and appends it to the path.

Modules:

- `Wrappers`: the `Option` and `Result` types.
- `Text`: token characters (RFC 7230 section 3.2.6), ASCII case mapping,
  `strconv.Itoa` and its inverse, byte-wise string order, `strings.Cut`.
- `Headers`: `http.Header` as a map from canonical names to value lists.
  It covers `textproto.CanonicalMIMEHeaderKey`, `Set`, `Add` and `Values`.
- `Client`: `client.go`.
  - `NewRequest` is a method whose loop models the `range` over the extra
    headers.
  - `Perform` and `HandleError` are functions over the transport outcome.
- `Query`: `utils.go`.
  - `GenerateURLPath` is a method whose loop models the loop over the struct
    fields.
  - `url.Values.Encode` is a stable sort by key followed by rendering.
  - `ParseQuery`/`Get` model how a server reads the query back.

Some inputs come from code outside this model. They are parameters:

- the result of parsing and printing the URL (`resolve`);
- the JSON encoder (`encode`), whose output gets the newline that
  `json.Encoder.Encode` appends;
- the outcome of `http.Client.Do` (`sent`);
- the writer copy (`write`);
- the three JSON decoders (`Decoders`);
- the iteration order of the Go map of extra headers (`order`). It may be any
  order of exactly the map's keys.

Facts about the code that a reader might not expect:

- The code has no 401 re-authentication or retry. A 401 is classified like
  every other status outside 400/422 (see
  `Client.OnlyBadRequestAndUnprocessableAreSpecial`).
- The code has no error kind of its own for 404.
- The code always sets `Authorization` to `"Bearer " + token`, even when the
  token is empty.
- Every error message the code builds starts with `"[ERROR]: "`, and the
  detail follows it.
- The code treats a 204 response as an error, not an empty success (see
  `## Findings`).

## Model

| member | source | states |
|---|---|---|
| Client.NewRequest | client.go:69-97 | A URL that does not resolve gives that error and no request. An encoding failure gives that error. The method succeeds exactly when neither happens. An empty method becomes GET. The URL is the resolved one. The body is the encoding plus a trailing newline when there are params, and is absent otherwise. Accept, User-Agent and Authorization each hold exactly one value: `application/json`, `Swervpay/Go-Sdk 0.0.1` and `Bearer <token>`. Content-Type holds `application/json` (when there is a body), followed by one appended value per extra header with that canonical name. Without such an extra header, Content-Type is present iff there is a body. Every other name holds exactly the extra headers' values. |
| Client.AddExtraHeaders | client.go:88-90 | After the Add loop, every name holds its earlier values followed by the values of the extra headers with that canonical name, in iteration order. The header stays keyed by canonical names. |
| Client.FinalHeader | client.go:85-94 | After the loop and the three Sets, Content-Type holds the body's value (if any) followed by one extra value per extra header of that canonical name. Every name outside the four holds exactly what the loop added. |
| Client.SetFixed | client.go:92-94 | After the three Sets, Accept, User-Agent and Authorization hold exactly `application/json`, `Swervpay/Go-Sdk 0.0.1` and `Bearer <token>`. Every other name keeps its values. The header stays keyed by canonical names. |
| Client.AppendedCount | client.go:88-90 | The loop appends one value per extra header of the same canonical name, whatever the iteration order. |
| Client.ExtraCount | client.go:88-90 | The number of values the loop appends for a name equals the number of the client's extra header keys with that canonical name. |
| Client.AppendedValues | client.go:88-90 | A value is appended for a name iff some extra header with that canonical name carries it. |
| Client.AddStep | client.go:89 | One Add keeps the loop's account of every header name. |
| Client.Perform | client.go:100-134 | A transport error gives an error and no response. Success implies the status is 200 or 201 and the response is the one received. Any other status gives handleError's error. A nil destination delivers nothing. A writer receives the body verbatim, or its copy error is returned. A JSON target receives the decoded value, or the decode error is returned. |
| Client.PerformSucceedsIff | client.go:113-133 | Perform succeeds iff the transport succeeded, the status is 200 or 201, and the chosen destination accepted the body. |
| Client.OtherStatusesFail | client.go:113-115 | Every status other than 200 and 201 (204 and 401 included) fails with exactly handleError's verdict, which is an API message or a decode error. |
| Client.HandleError | client.go:136-159 | Every API message starts with `[ERROR]: `. 400 and 422 bodies are read as InvalidRequestError, others as DefaultResponse. A decode failure is returned as is. Outside 400/422 the message always has a detail. |
| Client.OnlyBadRequestAndUnprocessableAreSpecial | client.go:137-158 | Any two statuses outside 400/422 (such as 401 and 404) are classified identically for the same body. |
| Client.InvalidRequestMessage | client.go:140-146 | For 400 and 422 the detail after the prefix is exactly the server's message, even an empty one. |
| Client.DefaultMessage | client.go:147-157 | For other statuses the detail is the server's message, or `Unknown Error` when that is empty, so it is never empty. |
| Client.ErrorBodyDecodeFailure | client.go:142-145 | An error body that does not decode gives the decoder's error, whichever branch reads it. |
| Client.NoContentIsRejected | client.go:113-117 | As written, a 204 response fails with handleError's verdict, whatever the destination. |
| Client.PerformAccepting204 | client.go:113-133 | With 204 accepted, a 204 response succeeds and delivers nothing. Every other outcome is as in Perform. |
| Headers.CanonicalKeyTokens | client.go:85-94 | A name consists of token characters iff its canonical form does. |
| Headers.CanonicalKeyIdempotent | client.go:85-94 | Canonicalising a canonical name changes nothing. |
| Headers.Set | client.go:85 | After Set, the name holds exactly the one new value. Names with a different canonical form are unchanged. The header stays keyed by canonical names. |
| Headers.Add | client.go:89 | After Add, the name holds its old values followed by the new one. Names with a different canonical form are unchanged. The header stays keyed by canonical names. |
| Headers.AddSameName | client.go:89 | Adding under any spelling of a name appends to that name's values. |
| Headers.LowerCaseContentType | client.go:85-89 | An extra header spelled `content-type` lands on `Content-Type`, so it is appended to the body's Content-Type. |
| Headers.CanonicalKeyOfShape | client.go:85-94 | A token name already upper-case at its start and after each dash, and lower-case elsewhere, is its own canonical form. |
| Query.GenerateURLPath | utils.go:10-34 | The result is the path, then `&` if the path contains `?` and `?` otherwise, then the encoding of one lower-cased-name/decimal pair per field. It begins with the path and always contains `?`. |
| Query.Pairs | utils.go:18-22 | There is one pair per field, in field order. Pair i is field i's lower-cased name with its decimal value. |
| Query.SortByKeySorts | utils.go:24 | The encoded pairs are sorted by key and are a permutation of the added pairs. |
| Query.SortByKeyStable | utils.go:24 | Pairs with equal keys keep their order, so the first value added for a key is still the first one encoded. |
| Query.GetSorted | utils.go:24 | Reading a key's first value gives the same result before and after sorting. |
| Query.ParseRender | utils.go:24 | Reading back a rendered query whose keys and values contain no `&` or `=` gives the pairs that were rendered. |
| Query.PairsUnreserved | utils.go:21-24 | Lower-cased exported names and decimal numbers use only characters that query escaping leaves unchanged. |
| Query.EncodeHasNoQuestionMark | utils.go:24-31 | The encoded query contains no `?`. |
| Query.QueryRoundTrip | utils.go:18-24 | Reading key k from the encoded query gives the decimal value of the first field whose lower-cased name is k, and empty when there is none. |
| Query.GeneratedPathReadsBack | utils.go:24-33 | For a path without `?`, the result splits at its first `?` into the path and the query, and every field reads back from the query. |
| Query.PageAndLimitEncoding | bill_test.go:118-119 | Page 1 and Limit 10 encode as `limit=10&page=1` in either field order. |
| Query.BillCategoriesPath | bill.go:146 | The bill categories path for Page 1 and Limit 10 is `bills/categories?limit=10&page=1`. |
| Text.Itoa | utils.go:21 | The decimal text is non-empty. It is digits with an optional leading `-`, which appears iff the number is negative. |
| Text.AtoiItoa | utils.go:21 | Parsing the decimal text of n gives n back. |
| Text.ItoaInjective | utils.go:21 | Distinct numbers have distinct decimal texts. |
| Text.ToLower | utils.go:21 | Lower-casing keeps the length and maps each ASCII upper-case letter to its lower-case form. |
| Text.LessEqTotal | utils.go:24 | The byte-wise key order used by the sort is total. |
| Text.LessEqTransitive | utils.go:24 | The key order is transitive. |
| Text.LessEqAntisymmetric | utils.go:24 | Keys that are each at most the other are equal. |
| Text.Cut | utils.go:24-31 | Reading side only. `Query.ParseQuery` uses it to split a query at `&` and `=`, and `Query.GeneratedPathReadsBack` uses it to split the result at `?`, the way `url.Parse` and `url.ParseQuery` read what this code builds. Cutting at a separator splits before its first occurrence. Without one, the whole string is returned. |
| Text.CutAt | utils.go:24-31 | Reading side only, used by `Query.ParseRender` and `Query.GeneratedPathReadsBack`. Cutting `a + sep + b` at sep, where sep does not occur in a, gives a and b. |

## Left out

- Network I/O, the context, and `http.Client.Do` are not modelled. Their outcome is the `sent` parameter of `Perform`.
- JSON encoding and decoding are not modelled. The encoder and the three decoders are parameters. Only the encoder's trailing newline is modelled.
- `url.URL.Parse`/`String` are not modelled. They are the `resolve` parameter. `http.NewRequestWithContext` parses the printed URL again. If that second parse failed, `req` would be nil and the code would panic at client.go:84, 89 or 92. The model assumes every URL `resolve` yields parses again.
- Client.NewRequest: an invalid HTTP method makes `http.NewRequestWithContext` fail. The code discards that error, leaving `req` nil. This is a precondition, so the model does not cover the case. Usually the nil `req` is dereferenced and panics. The exception is non-nil params that fail to encode: then client.go:79-81 returns the encoding error before `req` is used. The precondition excludes this case as well.
- The `resp.Body != nil` test at client.go:124 is not modelled. `http.Client.Do` always returns a non-nil body on success.
- Closing the body (client.go:105-110) is not modelled, and neither is `ContentLength`. Neither affects a result.
- Client.NewRequest: the Go map iteration order of the extra headers is a parameter. When two extra header names share a canonical form, the order of their values depends on it, and the model states the result for that given order.
- Query.GenerateURLPath: field names are limited to ASCII exported identifiers and values to Go `int`. Reflection, pointer dereferencing and the panic on a non-int field become that precondition. Unicode lower-casing outside ASCII is not modelled.
- `url.QueryEscape` is not applied. `Query.PairsUnreserved` shows it would leave every key and value unchanged.
- Go's `int` width is not modelled. Values are unbounded integers, and the decimal text of every Go `int` is covered.
- A typed-nil `params` is not modelled. `params` is either absent or a value.
- The definition of `PageAndLimitQuery` is not part of this model, so its field order is unknown. `Query.PageAndLimitEncoding` covers both orders.
- The resource wrappers (bill.go, card.go and the rest), `NewSwervpayClient`, the swyftpay stub and the examples are not modelled. They only call the core.
- Concurrency is not modelled. The core writes no shared state. It reads `c.AccessToken`, `c.BaseURL` and `c.headers`, which callers may change concurrently, and such races are not modelled.

## Findings

| source | as written | input that shows it | evidently intended | confidence | as-written member | corrected member |
|---|---|---|---|---|---|---|
| client.go:113-117 | Only 200 and 201 pass the status check, so the later `StatusCode != StatusNoContent` test is always true and a 204 goes to handleError | a 204 No Content response with an empty body | a 204 succeeds and nothing is decoded, as the guard at line 117 expects | medium, not executed | Client.NoContentIsRejected | Client.PerformAccepting204 |
