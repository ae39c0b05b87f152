/** The shared axios instance (src/utils/request.ts): a request interceptor that
    attaches the stored bearer token and a response interceptor that sorts
    every reply into exactly one resolved or rejected outcome. */
module Request {
  import opened Web

  /** The backend's response envelope (`ApiResponse`); `data` is endpoint-specific.
      A field the server left out is `None`. */
  datatype Envelope<T> = Envelope(code: Option<int>, message: Option<string>, data: T, timestamp: Option<int>)

  /** `error.response` of an axios error that carried an HTTP reply: its status,
      `response.data?.message`, and `response.error` (a property axios itself
      never sets, which the login and register pages read). */
  datatype ErrorResponse = ErrorResponse(status: int, dataMessage: Option<string>, error: Option<string>)

  /** An axios error: its own `message`, and the reply if one arrived. */
  datatype HttpError = HttpError(message: string, response: Option<ErrorResponse>)

  /** What the transport hands the response interceptor: a parsed body, or an error. */
  datatype Reply<T> = Delivered(body: Envelope<T>) | Failed(error: HttpError)

  /** What a rejected promise carries: the whole body (business rejection) or the axios error. */
  datatype Reason<T> = Business(body: Envelope<T>) | Transport(error: HttpError)

  /** The settled promise the caller of the pipeline awaits. */
  datatype Settled<T> = Resolved(value: Envelope<T>) | Rejected(reason: Reason<T>)

  /** `res.code && res.code !== 200`: the code is present, non-zero and not 200. */
  predicate IsBusinessError<T>(body: Envelope<T>) {
    body.code.Some? && body.code.value != 0 && body.code.value != 200
  }

  /** The response interceptor's outcome for one reply. A body resolves, as the
      same whole body, exactly when its code is 200, 0 or missing; any other
      body is rejected with that same body; a transport error is rejected with
      that same error. */
  function Settle<T>(reply: Reply<T>): (s: Settled<T>)
    ensures reply.Delivered? ==>
      (s.Resolved? <==> reply.body.code in {None, Some(0), Some(200)})
    ensures reply.Delivered? && s.Resolved? ==> s.value == reply.body
    ensures reply.Delivered? && s.Rejected? ==> s.reason == Business(reply.body)
    ensures reply.Failed? ==> s == Rejected(Transport(reply.error))
  {
    match reply
    case Delivered(body) => if IsBusinessError(body) then Rejected(Business(body)) else Resolved(body)
    case Failed(error) => Rejected(Transport(error))
  }

  /** The text of the toast raised on a rejection: `res.message || 'Error'` for
      a business rejection, `error.response?.data?.message || error.message`
      for a transport error. */
  function FailureText<T>(reply: Reply<T>): (t: string)
    ensures reply.Delivered? && Truthy(reply.body.message) ==> t == reply.body.message.value
    ensures reply.Delivered? && !Truthy(reply.body.message) ==> t == "Error"
    ensures reply.Failed? && reply.error.response.Some? && Truthy(reply.error.response.value.dataMessage) ==>
      t == reply.error.response.value.dataMessage.value
    ensures reply.Failed? && !(reply.error.response.Some? && Truthy(reply.error.response.value.dataMessage)) ==>
      t == reply.error.message
  {
    match reply
    case Delivered(body) => OrElse(body.message, "Error")
    case Failed(error) =>
      OrElse(if error.response.Some? then error.response.value.dataMessage else None, error.message)
  }

  /** The toasts the response interceptor raises for one reply: one error toast
      on every rejection, none on a resolution. */
  function InterceptorToasts<T>(reply: Reply<T>): (ts: seq<Toast>)
    ensures |ts| == (if Settle(reply).Rejected? then 1 else 0)
    ensures forall i :: 0 <= i < |ts| ==> ts[i].level == Error
    ensures Settle(reply).Rejected? ==> ts == [Toast(Error, FailureText(reply))]
  {
    if Settle(reply).Rejected? then [Toast(Error, FailureText(reply))] else []
  }

  /** `error.response?.status === 401`. */
  predicate IsUnauthorized<T>(reply: Reply<T>) {
    reply.Failed? && reply.error.response.Some? && reply.error.response.value.status == 401
  }

  /** The response interceptor (both of its callbacks): classifies the reply,
      raises its toasts, redirects to `/` on an HTTP 401, and leaves the stored
      token alone. */
  method Receive<T>(b: Browser, reply: Reply<T>) returns (s: Settled<T>)
    modifies b`toasts, b`location
    ensures s == Settle(reply)
    ensures b.toasts == old(b.toasts) + InterceptorToasts(reply)
    ensures b.location == if IsUnauthorized(reply) then "/" else old(b.location)
    ensures b.storage == old(b.storage)
  {
    match reply {
      case Delivered(res) =>
        if res.code.Some? && res.code.value != 0 && res.code.value != 200 {
          b.Notify(Error, OrElse(res.message, "Error"));
          s := Rejected(Business(res));
        } else {
          s := Resolved(res);
        }
      case Failed(error) =>
        if error.response.Some? && error.response.value.status == 401 {
          b.location := "/";
        }
        var dataMessage := if error.response.Some? then error.response.value.dataMessage else None;
        b.Notify(Error, OrElse(dataMessage, error.message));
        s := Rejected(Transport(error));
    }
  }

  /** Every reply yields a rejection exactly when the interceptor raises a toast,
      so no reply both resolves and reports a failure. */
  lemma ToastIffRejected<T>(reply: Reply<T>)
    ensures Settle(reply).Rejected? <==> InterceptorToasts(reply) != []
  {
  }

  /** An envelope carrying code 401 over a successful HTTP exchange is an
      ordinary business rejection: it neither redirects nor touches the token. */
  lemma EnvelopeCode401IsBusiness<T>(body: Envelope<T>)
    requires body.code == Some(401)
    ensures Settle(Delivered(body)) == Rejected(Business(body))
    ensures !IsUnauthorized(Delivered(body))
  {
  }

  /** The outgoing request configuration; the interceptor updates `headers` in place. */
  class RequestConfig {
    var url: string
    var headers: map<string, string>

    constructor (url: string, headers: map<string, string>)
      ensures this.url == url && this.headers == headers
    {
      this.url := url;
      this.headers := headers;
    }
  }

  /** The headers after the request interceptor: with a non-empty stored token,
      `Authorization` is `Bearer <token>` and every other header is kept;
      without one (absent or empty), the headers are unchanged. */
  function WithBearer(headers: map<string, string>, storage: map<string, string>): (h: map<string, string>)
    ensures Truthy(GetItem(storage, "token")) ==>
      h.Keys == headers.Keys + {"Authorization"} && h["Authorization"] == "Bearer " + storage["token"]
    ensures forall k :: k in headers && k != "Authorization" ==> k in h && h[k] == headers[k]
    ensures !Truthy(GetItem(storage, "token")) ==> h == headers
  {
    var token := GetItem(storage, "token");
    if Truthy(token) then headers["Authorization" := "Bearer " + token.value] else headers
  }

  /** The request interceptor: reads the token and, when it is truthy, sets the
      `Authorization` header of the same config object it returns. */
  method InterceptRequest(config: RequestConfig, b: Browser) returns (out: RequestConfig)
    modifies config`headers
    ensures out == config
    ensures config.headers == WithBearer(old(config.headers), b.storage)
    ensures config.url == old(config.url)
  {
    var token := GetItem(b.storage, "token");
    if token.Some? && token.value != "" {
      config.headers := config.headers["Authorization" := "Bearer " + token.value];
    }
    out := config;
  }

  /** `error.response?.error` read from a rejection reason, as the login and
      register pages do: a business rejection carries the envelope, which has no
      `response`, so only a transport error with a reply can supply it. */
  function ResponseError<T>(reason: Reason<T>): (e: Option<string>)
    ensures reason.Business? ==> e == None
  {
    match reason
    case Business(_) => None
    case Transport(error) => if error.response.Some? then error.response.value.error else None
  }
}
