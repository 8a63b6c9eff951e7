/**
 * The request pipeline of client.go. NewRequest builds an outbound request
 * and its header map step by step; Perform classifies the response by its
 * status and hands the body to the caller's destination; HandleError turns
 * a failed response into an error.
 *
 * What the pipeline calls but does not own is passed in as data or as a
 * total function: the base URL's relative resolution (`resolve`), the JSON
 * encoder (`encode`), the transport's outcome (`sent`), the caller's
 * io.Writer (`write`) and the JSON decoders (`json`).
 */
module Client {
  import opened Wrappers
  import opened Text
  import opened Headers

  newtype byte = x: int | 0 <= x < 256

  const version := "0.0.1"
  const userAgent := "Swervpay/Go-Sdk " + version
  const contentType := "application/json"

  /** The prefix every message built by handleError starts with. */
  const errorPrefix := "[ERROR]: "
  const unknownError := "Unknown Error"

  const StatusOK := 200
  const StatusCreated := 201
  const StatusNoContent := 204
  const StatusBadRequest := 400
  const StatusUnprocessableEntity := 422

  /** The names NewRequest always sets after the extra headers. */
  const FixedNames: set<string> := {"Accept", "User-Agent", "Authorization"}

  /** The fields of SwervpayClient that NewRequest reads. */
  datatype SwervpayClient = SwervpayClient(accessToken: string, headers: map<string, string>)

  datatype Request = Request(verb: string, url: string, header: Header, body: Option<seq<byte>>)

  datatype Response = Response(status: int, body: seq<byte>)

  /** The error body of a 400 or 422 response. */
  datatype InvalidRequestError = InvalidRequestError(statusCode: int, name: string, message: string)

  /** The error body of any other failed response. */
  datatype DefaultResponse = DefaultResponse(message: string)

  datatype Error =
    | UrlError(reason: string)        // BaseURL.Parse rejected the path
    | EncodeError(reason: string)     // params could not be encoded as JSON
    | TransportError(reason: string)  // http.Client.Do failed
    | CopyError(reason: string)       // io.Copy into the caller's writer failed
    | DecodeError(reason: string)     // a JSON body did not decode
    | ApiError(message: string)       // the errors.New values handleError builds

  /** What the caller passes as `ret`: nil, an io.Writer, or any other
      value, which the body is JSON-decoded into. */
  datatype Destination = Discard | Writer | Target

  /** What Perform did with the body of a successful response. */
  datatype Delivered<V> = Nothing | Copied(bytes: seq<byte>) | Decoded(value: V)

  datatype Performed<V> = Performed(response: Response, delivered: Delivered<V>)

  /** JSON decoding of a body into the caller's value and into the two
      error shapes. */
  datatype Decoders<V> = Decoders(
    target: seq<byte> -> Result<V, string>,
    invalidRequest: seq<byte> -> Result<InvalidRequestError, string>,
    defaultResponse: seq<byte> -> Result<DefaultResponse, string>)

  /** `order` is one order in which `range` may visit the map m: every key
      exactly once. Go leaves the order unspecified. */
  predicate IsIterationOrder(order: seq<string>, m: map<string, string>) {
    && (forall i, j :: 0 <= i < j < |order| ==> order[i] != order[j])
    && (forall k :: k in order ==> k in m)
    && (forall k :: k in m ==> k in order)
  }

  /** The values the Add loop appends under the canonical name of key, in
      the order the loop visits the extra headers. */
  function Appended(extra: map<string, string>, order: seq<string>, key: string): seq<string>
    requires forall k :: k in order ==> k in extra
  {
    if order == [] then []
    else
      var last := order[|order| - 1];
      Appended(extra, order[..|order| - 1], key)
        + (if CanonicalKey(last) == CanonicalKey(key) then [extra[last]] else [])
  }

  /** The extra header names whose canonical form is that of key. */
  function SameName(names: seq<string>, key: string): set<string> {
    set k | k in names && CanonicalKey(k) == CanonicalKey(key)
  }

  lemma SameNameSnoc(names: seq<string>, last: string, key: string)
    ensures SameName(names + [last], key)
         == SameName(names, key) + (if CanonicalKey(last) == CanonicalKey(key) then {last} else {})
  {
    assert forall k :: k in names + [last] <==> k in names || k == last;
  }

  lemma LastNotInPrefix(order: seq<string>)
    requires |order| > 0
    requires forall i, j :: 0 <= i < j < |order| ==> order[i] != order[j]
    ensures order[|order| - 1] !in order[..|order| - 1]
  {
  }

  /** Exactly one value is appended per extra header whose name has the
      same canonical form as key, whatever the iteration order. */
  lemma {:induction false} AppendedCount(extra: map<string, string>, order: seq<string>, key: string)
    requires forall i, j :: 0 <= i < j < |order| ==> order[i] != order[j]
    requires forall k :: k in order ==> k in extra
    ensures |Appended(extra, order, key)| == |SameName(order, key)|
    decreases |order|
  {
    if order != [] {
      var n := |order| - 1;
      var prefix, last := order[..n], order[n];
      assert order == prefix + [last];
      SameNameSnoc(prefix, last, key);
      LastNotInPrefix(order);
      AppendedCount(extra, prefix, key);
    }
  }

  /** The appended values are exactly the values of the extra headers
      whose names have the canonical form of key. */
  lemma {:induction false} AppendedValues(extra: map<string, string>, order: seq<string>, key: string, v: string)
    requires forall k :: k in order ==> k in extra
    ensures v in Appended(extra, order, key)
        <==> exists k :: k in order && CanonicalKey(k) == CanonicalKey(key) && extra[k] == v
    decreases |order|
  {
    if order != [] {
      var n := |order| - 1;
      var prefix := order[..n];
      assert order == prefix + [order[n]];
      assert forall k :: k in order <==> k in prefix || k == order[n];
      AppendedValues(extra, prefix, key, v);
    }
  }

  lemma AppendedSnoc(extra: map<string, string>, order: seq<string>, i: nat, key: string)
    requires i < |order| && forall k :: k in order ==> k in extra
    ensures Appended(extra, order[..i + 1], key)
         == Appended(extra, order[..i], key)
            + (if CanonicalKey(order[i]) == CanonicalKey(key) then [extra[order[i]]] else [])
  {
    assert order[..i + 1][..i] == order[..i];
  }

  /** One turn of the Add loop, seen from one name. */
  lemma AddStepAt(h: Header, initial: Header, extra: map<string, string>, order: seq<string>, i: nat, key: string)
    requires i < |order| && forall k :: k in order ==> k in extra
    requires Values(h, key) == Values(initial, key) + Appended(extra, order[..i], key)
    ensures Values(Add(h, order[i], extra[order[i]]), key)
         == Values(initial, key) + Appended(extra, order[..i + 1], key)
  {
    AppendedSnoc(extra, order, i, key);
    if CanonicalKey(key) == CanonicalKey(order[i]) {
      AddSameName(h, order[i], extra[order[i]], key);
    }
  }

  /** h holds initial's values followed by what the Add loop appended
      for the extra headers visited so far. */
  ghost predicate Accounted(h: Header, initial: Header, extra: map<string, string>, visited: seq<string>)
    requires forall k :: k in visited ==> k in extra
  {
    forall key :: Values(h, key) == Values(initial, key) + Appended(extra, visited, key)
  }

  /** One turn of the Add loop keeps the loop's account of every name. */
  lemma AddStep(h: Header, initial: Header, extra: map<string, string>, order: seq<string>, i: nat)
    requires i < |order| && forall k :: k in order ==> k in extra
    requires Accounted(h, initial, extra, order[..i])
    ensures Accounted(Add(h, order[i], extra[order[i]]), initial, extra, order[..i + 1])
  {
    forall key
      ensures Values(Add(h, order[i], extra[order[i]]), key)
           == Values(initial, key) + Appended(extra, order[..i + 1], key)
    {
      AddStepAt(h, initial, extra, order, i, key);
    }
  }

  /** The three Set calls that close NewRequest: Accept, User-Agent and
      Authorization end with exactly one value each, and every other name
      keeps its values. */
  function SetFixed(h: Header, token: string): (r: Header)
    ensures Values(r, "Accept") == [contentType]
    ensures Values(r, "User-Agent") == [userAgent]
    ensures Values(r, "Authorization") == ["Bearer " + token]
    ensures forall key {:trigger Values(r, key)} :: CanonicalKey(key) !in FixedNames ==> Values(r, key) == Values(h, key)
    ensures WellFormed(h) ==> WellFormed(r)
  {
    AcceptCanonical();
    UserAgentCanonical();
    AuthorizationCanonical();
    Set(Set(Set(h, "Accept", contentType), "User-Agent", userAgent), "Authorization", "Bearer " + token)
  }

  /** The `for k, v := range c.headers { req.Header.Add(k, v) }` loop, in
      the iteration order `order`. */
  method AddExtraHeaders(h: Header, extra: map<string, string>, order: seq<string>) returns (r: Header)
    requires WellFormed(h)
    requires forall k :: k in order ==> k in extra
    ensures WellFormed(r)
    ensures Accounted(r, h, extra, order)
  {
    r := h;
    var i := 0;
    while i < |order|
      invariant 0 <= i <= |order|
      invariant WellFormed(r)
      invariant Accounted(r, h, extra, order[..i])
    {
      var k := order[i];
      AddStep(r, h, extra, order, i);
      r := Add(r, k, extra[k]);
      i := i + 1;
    }
    assert order[..i] == order;
  }

  /** The loop appends one value for each key of the map with the same
      canonical name. */
  lemma ExtraCount(extra: map<string, string>, order: seq<string>, key: string)
    requires IsIterationOrder(order, extra)
    ensures |Appended(extra, order, key)| == |set k | k in extra && CanonicalKey(k) == CanonicalKey(key)|
  {
    AppendedCount(extra, order, key);
    assert SameName(order, key) == (set k | k in extra && CanonicalKey(k) == CanonicalKey(key));
  }

  /** What the three Set calls after the loop leave in the header map. */
  lemma FinalHeader(initial: Header, extraAdded: Header, extra: map<string, string>, order: seq<string>,
                    token: string, hasBody: bool)
    requires IsIterationOrder(order, extra)
    requires initial == if hasBody then Set(map[], "Content-Type", contentType) else map[]
    requires Accounted(extraAdded, initial, extra, order)
    ensures var h := SetFixed(extraAdded, token);
      && Values(h, "Content-Type") == (if hasBody then [contentType] else []) + Appended(extra, order, "Content-Type")
      && |Values(h, "Content-Type")|
         == (if hasBody then 1 else 0) + |set k | k in extra && CanonicalKey(k) == "Content-Type"|
      && forall key :: CanonicalKey(key) !in FixedNames + {"Content-Type"} ==>
           Values(h, key) == Appended(extra, order, key)
  {
    var h := SetFixed(extraAdded, token);
    ContentTypeCanonical();
    assert CanonicalKey("Content-Type") !in FixedNames;
    assert Values(initial, "Content-Type") == if hasBody then [contentType] else [];
    assert Values(h, "Content-Type") == Values(extraAdded, "Content-Type");
    ExtraCount(extra, order, "Content-Type");
    forall key | CanonicalKey(key) !in FixedNames + {"Content-Type"}
      ensures Values(h, key) == Appended(extra, order, key)
    {
      assert Values(h, key) == Values(extraAdded, key);
      assert Values(initial, key) == [];
    }
  }

  /** SwervpayClient.NewRequest. The result is an error when the path does
      not resolve against the base URL or params do not encode. Otherwise
      the header map holds: Content-Type set to application/json when there
      is a body; every extra header of the client added under its canonical
      name; then Accept, User-Agent and Authorization set, which replaces
      whatever the extra headers put there. */
  method NewRequest<P>(c: SwervpayClient, httpMethod: string, path: string, params: Option<P>,
                       resolve: string -> Result<string, string>,
                       encode: P -> Result<seq<byte>, string>,
                       order: seq<string>)
    returns (r: Result<Request, Error>)
    requires httpMethod == "" || IsToken(httpMethod)
    requires IsIterationOrder(order, c.headers)
    ensures resolve(path).Failure? ==> r == Failure(UrlError(resolve(path).error))
    ensures resolve(path).Success? && params.Some? && encode(params.value).Failure? ==>
              r == Failure(EncodeError(encode(params.value).error))
    ensures r.Success? <==> resolve(path).Success? && (params.Some? ==> encode(params.value).Success?)
    ensures r.Success? ==> r.value.verb == (if httpMethod == "" then "GET" else httpMethod)
    ensures r.Success? ==> r.value.url == resolve(path).value
    ensures r.Success? ==> r.value.body == (if params.Some? then Some(encode(params.value).value + [10]) else None)
    ensures r.Success? ==> WellFormed(r.value.header)
    ensures r.Success? ==> Values(r.value.header, "Accept") == [contentType]
    ensures r.Success? ==> Values(r.value.header, "User-Agent") == [userAgent]
    ensures r.Success? ==> Values(r.value.header, "Authorization") == ["Bearer " + c.accessToken]
    ensures r.Success? ==>
              Values(r.value.header, "Content-Type")
              == (if params.Some? then [contentType] else []) + Appended(c.headers, order, "Content-Type")
    ensures r.Success? ==>
              |Values(r.value.header, "Content-Type")|
              == (if params.Some? then 1 else 0) + |set k | k in c.headers && CanonicalKey(k) == "Content-Type"|
    ensures r.Success? ==> forall key :: CanonicalKey(key) !in FixedNames + {"Content-Type"} ==>
              Values(r.value.header, key) == Appended(c.headers, order, key)
    ensures r.Success? && (forall k :: k in c.headers ==> CanonicalKey(k) != "Content-Type") ==>
              (Values(r.value.header, "Content-Type") != [] <==> r.value.body.Some?)
  {
    var u := resolve(path);
    if u.Failure? {
      return Failure(UrlError(u.error));
    }
    var m := if httpMethod == "" then "GET" else httpMethod;
    var h: Header := map[];
    var body: Option<seq<byte>> := None;
    if params.Some? {
      var buf := encode(params.value);
      if buf.Failure? {
        return Failure(EncodeError(buf.error));
      }
      body := Some(buf.value + [10]);
      h := Set(h, "Content-Type", contentType);
    }
    ghost var initial := h;
    h := AddExtraHeaders(h, c.headers, order);
    ghost var extraAdded := h;
    h := Set(h, "Accept", contentType);
    h := Set(h, "User-Agent", userAgent);
    h := Set(h, "Authorization", "Bearer " + c.accessToken);
    assert h == SetFixed(extraAdded, c.accessToken);
    FinalHeader(initial, extraAdded, c.headers, order, c.accessToken, params.Some?);
    r := Success(Request(m, u.value, h, body));
  }

  predicate IsSuccessStatus(status: int) {
    status == StatusOK || status == StatusCreated
  }

  /** handleError: 400 and 422 bodies are read as InvalidRequestError, any
      other as DefaultResponse; a body that does not decode yields the
      decoder's own error. */
  function HandleError<V>(resp: Response, json: Decoders<V>): (e: Error)
    ensures e.ApiError? ==> errorPrefix <= e.message
    ensures e.ApiError? && resp.status !in {StatusBadRequest, StatusUnprocessableEntity} ==>
              |e.message| > |errorPrefix|
    ensures resp.status in {StatusBadRequest, StatusUnprocessableEntity} ==>
              match json.invalidRequest(resp.body)
              case Failure(d) => e == DecodeError(d)
              case Success(x) => e == ApiError(errorPrefix + x.message)
    ensures resp.status !in {StatusBadRequest, StatusUnprocessableEntity} ==>
              match json.defaultResponse(resp.body)
              case Failure(d) => e == DecodeError(d)
              case Success(x) => e == ApiError(errorPrefix + if x.message == "" then unknownError else x.message)
  {
    if resp.status == StatusUnprocessableEntity || resp.status == StatusBadRequest then
      match json.invalidRequest(resp.body)
      case Failure(d) => DecodeError(d)
      case Success(r) => ApiError(errorPrefix + r.message)
    else
      match json.defaultResponse(resp.body)
      case Failure(d) => DecodeError(d)
      case Success(r) =>
        if r.message != "" then ApiError(errorPrefix + r.message) else ApiError(errorPrefix + unknownError)
  }

  /** SwervpayClient.Perform, from the transport's outcome on. */
  function Perform<V>(sent: Result<Response, string>, dest: Destination,
                      write: seq<byte> -> Option<string>, json: Decoders<V>): (r: Result<Performed<V>, Error>)
    ensures sent.Failure? ==> r == Failure(TransportError(sent.error))
    ensures r.Success? ==> sent.Success? && IsSuccessStatus(sent.value.status) && r.value.response == sent.value
    ensures sent.Success? && !IsSuccessStatus(sent.value.status) ==> r == Failure(HandleError(sent.value, json))
    ensures sent.Success? && IsSuccessStatus(sent.value.status) && dest == Discard ==>
              r == Success(Performed(sent.value, Nothing))
    ensures sent.Success? && IsSuccessStatus(sent.value.status) && dest == Writer ==>
              r == match write(sent.value.body)
                   case None => Success(Performed(sent.value, Copied(sent.value.body)))
                   case Some(w) => Failure(CopyError(w))
    ensures sent.Success? && IsSuccessStatus(sent.value.status) && dest == Target ==>
              r == match json.target(sent.value.body)
                   case Success(v) => Success(Performed(sent.value, Decoded(v)))
                   case Failure(d) => Failure(DecodeError(d))
  {
    match sent
    case Failure(t) => Failure(TransportError(t))
    case Success(resp) =>
      if resp.status != StatusOK && resp.status != StatusCreated then
        Failure(HandleError(resp, json))
      else if resp.status != StatusNoContent && dest != Discard then
        if dest == Writer then
          match write(resp.body)
          case Some(w) => Failure(CopyError(w))
          case None => Success(Performed(resp, Copied(resp.body)))
        else
          match json.target(resp.body)
          case Failure(d) => Failure(DecodeError(d))
          case Success(v) => Success(Performed(resp, Decoded(v)))
      else
        Success(Performed(resp, Nothing))
  }

  // ---------------------------------------------------------------------
  // Properties of the classification.

  /** Perform succeeds exactly on 200 and 201, when the destination also
      accepts the body. */
  lemma PerformSucceedsIff<V>(sent: Result<Response, string>, dest: Destination,
                              write: seq<byte> -> Option<string>, json: Decoders<V>)
    ensures Perform(sent, dest, write, json).Success?
        <==> && sent.Success? && IsSuccessStatus(sent.value.status)
             && (dest == Writer ==> write(sent.value.body).None?)
             && (dest == Target ==> json.target(sent.value.body).Success?)
  {
  }

  /** Every other status is a failure carrying handleError's verdict:
      204 No Content and 401 Unauthorized included. */
  lemma OtherStatusesFail<V>(resp: Response, dest: Destination,
                             write: seq<byte> -> Option<string>, json: Decoders<V>)
    requires !IsSuccessStatus(resp.status)
    ensures Perform(Success(resp), dest, write, json) == Failure(HandleError(resp, json))
    ensures HandleError(resp, json).ApiError? || HandleError(resp, json).DecodeError?
  {
  }

  /** handleError singles out 400 and 422 only: 401, 404 and every other
      code are classified alike, with no re-authentication and no retry. */
  lemma OnlyBadRequestAndUnprocessableAreSpecial<V>(s1: int, s2: int, body: seq<byte>, json: Decoders<V>)
    requires s1 !in {StatusBadRequest, StatusUnprocessableEntity}
    requires s2 !in {StatusBadRequest, StatusUnprocessableEntity}
    ensures HandleError(Response(s1, body), json) == HandleError(Response(s2, body), json)
  {
  }

  /** The text after the "[ERROR]: " prefix. */
  function Detail(e: Error): string
    requires e.ApiError? && errorPrefix <= e.message
  {
    e.message[|errorPrefix|..]
  }

  /** A 400 or 422 reports the server's message after the prefix, even an
      empty one. */
  lemma InvalidRequestMessage<V>(status: int, body: seq<byte>, json: Decoders<V>, x: InvalidRequestError)
    requires status in {StatusBadRequest, StatusUnprocessableEntity}
    requires json.invalidRequest(body) == Success(x)
    ensures HandleError(Response(status, body), json).ApiError?
    ensures Detail(HandleError(Response(status, body), json)) == x.message
  {
  }

  /** Any other status reports the server's message when it has one and
      "Unknown Error" when it is empty, so the detail is never empty. */
  lemma DefaultMessage<V>(status: int, body: seq<byte>, json: Decoders<V>, x: DefaultResponse)
    requires status !in {StatusBadRequest, StatusUnprocessableEntity}
    requires json.defaultResponse(body) == Success(x)
    ensures HandleError(Response(status, body), json).ApiError?
    ensures Detail(HandleError(Response(status, body), json)) == if x.message == "" then unknownError else x.message
    ensures Detail(HandleError(Response(status, body), json)) != ""
  {
  }

  /** An error body that does not decode is reported as the decoder's own
      error, never replaced by a message. */
  lemma ErrorBodyDecodeFailure<V>(resp: Response, json: Decoders<V>, d: string)
    requires !IsSuccessStatus(resp.status)
    requires if resp.status in {StatusBadRequest, StatusUnprocessableEntity}
             then json.invalidRequest(resp.body) == Failure(d)
             else json.defaultResponse(resp.body) == Failure(d)
    ensures HandleError(resp, json) == DecodeError(d)
  {
  }

  // ---------------------------------------------------------------------
  // The 204 guard at client.go:117 never fires: 204 is already rejected at
  // client.go:113. The guard shows 204 was meant to succeed with nothing
  // decoded.

  /** As written, a 204 No Content response is an error. */
  lemma NoContentIsRejected<V>(body: seq<byte>, dest: Destination,
                               write: seq<byte> -> Option<string>, json: Decoders<V>)
    ensures Perform(Success(Response(StatusNoContent, body)), dest, write, json)
         == Failure(HandleError(Response(StatusNoContent, body), json))
  {
  }

  /** Perform with 204 accepted next to 200 and 201. */
  function PerformAccepting204<V>(sent: Result<Response, string>, dest: Destination,
                                  write: seq<byte> -> Option<string>, json: Decoders<V>): (r: Result<Performed<V>, Error>)
    ensures sent.Success? && sent.value.status == StatusNoContent ==>
              r == Success(Performed(sent.value, Nothing))
    ensures !(sent.Success? && sent.value.status == StatusNoContent) ==> r == Perform(sent, dest, write, json)
  {
    match sent
    case Failure(t) => Failure(TransportError(t))
    case Success(resp) =>
      if resp.status != StatusOK && resp.status != StatusCreated && resp.status != StatusNoContent then
        Failure(HandleError(resp, json))
      else if resp.status != StatusNoContent && dest != Discard then
        if dest == Writer then
          match write(resp.body)
          case Some(w) => Failure(CopyError(w))
          case None => Success(Performed(resp, Copied(resp.body)))
        else
          match json.target(resp.body)
          case Failure(d) => Failure(DecodeError(d))
          case Success(v) => Success(Performed(resp, Decoded(v)))
      else
        Success(Performed(resp, Nothing))
  }
}
