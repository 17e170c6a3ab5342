/** The HTTP client wrapper: the reference-counted loading overlay, the
    request interceptor (overlay and bearer token), the response
    interceptor (2xx test) and the error interceptor (classification into a
    user message, 401 token removal). The transport itself is left out. */
module Request {
  import opened Wrappers
  import opened Storage

  /** The storage key the client reads the bearer token from. */
  const TokenKey: string := "token"
  const AuthorizationHeader: string := "Authorization"

  /** The fields of a request configuration that the interceptors read or
      write; an absent flag is `None`. */
  datatype RequestConfig = RequestConfig(showLoading: Option<bool>, showErrorMessage: Option<bool>, headers: map<string, string>)

  datatype HttpResponse<T> = HttpResponse(status: nat, statusText: string, data: T)

  /** The three shapes of a failed call: the server answered with `status`
      (and a body whose `message` field may be present); a request was sent
      but nothing came back; or no request was made at all. */
  datatype ErrorShape =
    | ResponseError(status: nat, dataMessage: Option<string>)
    | NoResponse
    | NoRequest(message: string)

  /** A failed call, with the `showErrorMessage` flag of its configuration
      (`None` also when the error carries no configuration). */
  datatype HttpError = HttpError(shape: ErrorShape, showErrorMessage: Option<bool>)

  /** What the error interceptor does besides releasing the overlay: the
      notification it shows, if any, and the error the call is rejected with. */
  datatype ErrorOutcome = ErrorOutcome(notice: Option<string>, rejection: HttpError)

  const MsgBadRequest: string := "请求参数错误"
  const MsgUnauthorized: string := "未授权，请重新登录"
  const MsgForbidden: string := "权限不足"
  const MsgNotFound: string := "请求的资源不存在"
  const MsgServerError: string := "服务器内部错误"
  const MsgNetwork: string := "网络连接失败，请检查网络"
  const MsgUnknown: string := "未知错误"

  function Digit(d: nat): char
    requires d < 10
  {
    "0123456789"[d]
  }

  /** Decimal rendering of a number, as in a template string. */
  function DecimalString(n: nat): (s: string)
    ensures |s| > 0
    ensures forall k :: 0 <= k < |s| ==> '0' <= s[k] <= '9'
    ensures n > 0 ==> s[0] != '0'
    decreases n
  {
    if n < 10 then [Digit(n)] else DecimalString(n / 10) + [Digit(n % 10)]
  }

  /** The number a string of decimal digits denotes. */
  function DecimalValue(s: string): nat
    requires forall k :: 0 <= k < |s| ==> '0' <= s[k] <= '9'
  {
    if s == [] then 0 else 10 * DecimalValue(s[..|s| - 1]) + (s[|s| - 1] - '0') as nat
  }

  /** The status code in an error text can be read back exactly. */
  lemma {:induction false} DecimalRoundTrip(n: nat)
    ensures DecimalValue(DecimalString(n)) == n
    decreases n
  {
    var s := DecimalString(n);
    if n >= 10 {
      DecimalRoundTrip(n / 10);
      assert s[..|s| - 1] == DecimalString(n / 10);
    }
  }

  /** The server answered with status `code`. */
  predicate HasStatus(shape: ErrorShape, code: nat)
  {
    shape.ResponseError? && shape.status == code
  }

  /** Whether the request interceptor starts the overlay: unless the call
      says `showLoading: false`. */
  predicate WantsLoading(config: RequestConfig)
  {
    config.showLoading != Some(false)
  }

  /** The headers after the request interceptor: a stored, non-empty token
      becomes a bearer `Authorization` header; nothing else is touched. */
  function WithAuthorization(headers: map<string, string>, storage: Store): (h: map<string, string>)
    ensures forall k :: k != AuthorizationHeader ==> (k in h <==> k in headers)
    ensures forall k :: k != AuthorizationHeader && k in h ==> h[k] == headers[k]
    ensures HasItem(storage, TokenKey) ==>
              AuthorizationHeader in h && h[AuthorizationHeader] == "Bearer " + storage[TokenKey]
    ensures !HasItem(storage, TokenKey) ==> h == headers
  {
    if HasItem(storage, TokenKey) then headers[AuthorizationHeader := "Bearer " + storage[TokenKey]]
    else headers
  }

  /** The response interceptor's status test: a 2xx response resolves to its
      body; any other is rejected with an `HTTP <status>: <text>` error. */
  function ResponseOutcome<T>(response: HttpResponse<T>): (r: Result<T, string>)
    ensures r.Success? <==> 200 <= response.status < 300
    ensures r.Success? ==> r.value == response.data
    ensures r.Failure? ==> r.error == "HTTP " + DecimalString(response.status) + ": " + response.statusText
  {
    if 200 <= response.status < 300 then Success(response.data)
    else Failure("HTTP " + DecimalString(response.status) + ": " + response.statusText)
  }

  /** The user message for a failed call. Every failure gets a non-empty
      message; the five listed statuses get a fixed one whatever the body
      says; any other status gets the server's message, else a generic text
      carrying the status. */
  function ErrorMessage(shape: ErrorShape): (m: string)
    ensures m != ""
    ensures HasStatus(shape, 400) ==> m == MsgBadRequest
    ensures HasStatus(shape, 401) ==> m == MsgUnauthorized
    ensures HasStatus(shape, 403) ==> m == MsgForbidden
    ensures HasStatus(shape, 404) ==> m == MsgNotFound
    ensures HasStatus(shape, 500) ==> m == MsgServerError
    ensures shape.ResponseError? && shape.status !in {400, 401, 403, 404, 500} ==>
              if shape.dataMessage.Some? && shape.dataMessage.value != "" then m == shape.dataMessage.value
              else m == "请求失败 (" + DecimalString(shape.status) + ")"
    ensures shape.NoResponse? ==> m == MsgNetwork
    ensures shape.NoRequest? ==> m == (if shape.message != "" then shape.message else MsgUnknown)
  {
    match shape
    case ResponseError(status, dataMessage) =>
      if status == 400 then MsgBadRequest
      else if status == 401 then MsgUnauthorized
      else if status == 403 then MsgForbidden
      else if status == 404 then MsgNotFound
      else if status == 500 then MsgServerError
      else if dataMessage.Some? && dataMessage.value != "" then dataMessage.value
      else "请求失败 (" + DecimalString(status) + ")"
    case NoResponse => MsgNetwork
    case NoRequest(message) => if message != "" then message else MsgUnknown
  }

  /** The generic text names the status exactly: two unlisted statuses
      without a server message get the same text only if they are equal. */
  lemma {:induction false} GenericMessageIdentifiesStatus(a: nat, b: nat)
    requires a !in {400, 401, 403, 404, 500} && b !in {400, 401, 403, 404, 500}
    requires ErrorMessage(ResponseError(a, None)) == ErrorMessage(ResponseError(b, None))
    ensures a == b
  {
    var prefix, suffix := "请求失败 (", ")";
    var m := ErrorMessage(ResponseError(a, None));
    var da, db := DecimalString(a), DecimalString(b);
    assert m == prefix + da + suffix == prefix + db + suffix;
    assert da == m[|prefix|..|m| - 1];
    assert db == m[|prefix|..|m| - 1];
    DecimalRoundTrip(a);
    DecimalRoundTrip(b);
  }

  /** Storage after the error interceptor: a 401 response removes the stored
      token and nothing else; every other error leaves storage alone. */
  function StorageAfterError(storage: Store, shape: ErrorShape): (s: Store)
    ensures TokenKey in s <==> TokenKey in storage && !HasStatus(shape, 401)
    ensures forall k :: k != TokenKey ==> (k in s <==> k in storage)
    ensures forall k :: k in s ==> s[k] == storage[k]
  {
    if shape.ResponseError? && shape.status == 401 then RemoveItem(storage, TokenKey) else storage
  }

  /** The notification for a failed call: its message, unless the call says
      `showErrorMessage: false`. */
  function Notice(error: HttpError): (n: Option<string>)
    ensures n.Some? <==> error.showErrorMessage != Some(false)
    ensures n.Some? ==> n.value == ErrorMessage(error.shape) && n.value != ""
  {
    if error.showErrorMessage != Some(false) then Some(ErrorMessage(error.shape)) else None
  }

  /** The module-level `requestCount` and `loadingInstance` behind the one
      loading overlay; `overlayOpen` stands for a non-null `loadingInstance`. */
  class HttpClient {
    var requestCount: int
    var overlayOpen: bool

    /** The counter never goes negative, and the overlay is open exactly
        while the counter is positive. */
    ghost predicate Valid()
      reads this
    {
      requestCount >= 0 && (overlayOpen <==> requestCount > 0)
    }

    constructor ()
      ensures Valid()
      ensures requestCount == 0 && !overlayOpen
    {
      requestCount := 0;
      overlayOpen := false;
    }

    /** `showLoading`: opens the overlay on the first outstanding request
        (`created`), and counts one more. */
    method ShowLoading() returns (created: bool)
      requires Valid()
      modifies this
      ensures Valid()
      ensures created <==> old(requestCount) == 0
      ensures requestCount == old(requestCount) + 1 && overlayOpen
    {
      created := false;
      if requestCount == 0 {
        overlayOpen := true;
        created := true;
      }
      requestCount := requestCount + 1;
    }

    /** `hideLoading`: counts one fewer, clamping at zero; at zero the overlay
        is closed (`closed` when it was open). */
    method HideLoading() returns (closed: bool)
      requires Valid()
      modifies this
      ensures Valid()
      ensures requestCount == if old(requestCount) > 0 then old(requestCount) - 1 else 0
      ensures closed <==> old(requestCount) == 1
      ensures overlayOpen == (requestCount > 0)
    {
      closed := false;
      requestCount := requestCount - 1;
      if requestCount <= 0 {
        requestCount := 0;
        if overlayOpen {
          overlayOpen := false;
          closed := true;
        }
      }
    }

    /** The request interceptor: counts the call unless it opts out of the
        overlay, and attaches the stored bearer token. */
    method OnRequest(config: RequestConfig, storage: Store) returns (sent: RequestConfig)
      requires Valid()
      modifies this
      ensures Valid()
      ensures requestCount == old(requestCount) + (if WantsLoading(config) then 1 else 0)
      ensures sent == config.(headers := WithAuthorization(config.headers, storage))
    {
      if WantsLoading(config) {
        var _ := ShowLoading();
      }
      sent := config.(headers := WithAuthorization(config.headers, storage));
    }

    /** The request interceptor's error handler: releases the overlay and
        rejects with the same error. */
    method OnRequestError(error: HttpError) returns (rejection: HttpError)
      requires Valid()
      modifies this
      ensures Valid()
      ensures requestCount == if old(requestCount) > 0 then old(requestCount) - 1 else 0
      ensures rejection == error
    {
      var _ := HideLoading();
      rejection := error;
    }

    /** The response interceptor: releases the overlay, then resolves a 2xx
        response to its body and rejects any other. */
    method OnResponse<T>(response: HttpResponse<T>) returns (r: Result<T, string>)
      requires Valid()
      modifies this
      ensures Valid()
      ensures requestCount == if old(requestCount) > 0 then old(requestCount) - 1 else 0
      ensures r == ResponseOutcome(response)
    {
      var _ := HideLoading();
      r := ResponseOutcome(response);
    }

    /** The response interceptor's error handler: releases the overlay,
        removes the token on a 401, shows the classified message unless the
        call opts out, and rejects with the original error. */
    method OnResponseError(error: HttpError, storage: Store) returns (outcome: ErrorOutcome, after: Store)
      requires Valid()
      modifies this
      ensures Valid()
      ensures requestCount == if old(requestCount) > 0 then old(requestCount) - 1 else 0
      ensures outcome == ErrorOutcome(Notice(error), error)
      ensures after == StorageAfterError(storage, error.shape)
    {
      var _ := HideLoading();
      after := StorageAfterError(storage, error.shape);
      outcome := ErrorOutcome(Notice(error), error);
    }
  }

  /** Every completion releases the overlay, even of a call that never
      counted itself: with one call counted and one call that opted out, the
      opted-out call's response brings the counter to zero and closes the
      overlay while the counted call is still outstanding. */
  method OptedOutResponseClosesOverlay() returns (countAfter: int, overlayAfter: bool)
    ensures countAfter == 0 && !overlayAfter
  {
    var client := new HttpClient();
    var counted := client.OnRequest(RequestConfig(None, None, map[]), map[]);
    var optedOut := client.OnRequest(RequestConfig(Some(false), None, map[]), map[]);
    assert client.requestCount == 1 && client.overlayOpen;
    var r := client.OnResponse(HttpResponse(200, "OK", optedOut));
    countAfter, overlayAfter := client.requestCount, client.overlayOpen;
  }
}
