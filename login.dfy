/** The login page (src/pages/LoginHomePage/index.tsx): its field rules and
    `handleLogin`, which writes the token to storage and queues the move to the
    work board only when the pipeline resolves with code 200. */
module Login {
  import opened Web
  import opened Forms
  import Request

  /** `LoginRequest` as `onFinish` hands it over. */
  datatype LoginValues = LoginValues(username: Option<string>, password: Option<string>)

  /** The envelope's `data` on `/login`: `response.data.token`, `None` when the
      server sent no token. A JSON `null` token is not distinguished from a
      missing one here, although `setItem` would store it as `"null"`. */
  datatype LoginData = LoginData(token: Option<string>)

  predicate FormValid(v: LoginValues, isEmail: string -> bool) {
    Accepts(UsernameRules, v.username, isEmail) && Accepts(PasswordRules, v.password, isEmail)
  }

  /** The form is accepted exactly when the username has 4 to 20 characters
      and the password 6 to 20. */
  lemma FormValidIff(v: LoginValues, isEmail: string -> bool)
    ensures FormValid(v, isEmail) <==>
      v.username.Some? && 4 <= |v.username.value| <= 20 &&
      v.password.Some? && 6 <= |v.password.value| <= 20
  {
    UsernameAcceptedIff(v.username, isEmail);
    PasswordAcceptedIff(v.password, isEmail);
  }

  /** What `localStorage.setItem` stores for a value: the text itself, or the
      text `"undefined"` for a missing one (a `null` would be stored as `"null"`;
      the model's login data has no `null` token). */
  function StoredText(v: Option<string>): (t: string)
    ensures v.Some? ==> t == v.value
    ensures v.None? ==> t == "undefined"
  {
    if v.Some? then v.value else "undefined"
  }

  /** `response.code === 200` after the pipeline has resolved. */
  predicate Succeeds<T>(reply: Request.Reply<T>) {
    var s := Request.Settle(reply);
    s.Resolved? && s.value.code == Some(200)
  }

  /** The login succeeds exactly when the server delivered an envelope with
      code 200: a missing or zero code resolves through the pipeline but is not
      a success, and a rejection never is. */
  lemma SucceedsIff<T>(reply: Request.Reply<T>)
    ensures Succeeds(reply) <==> reply.Delivered? && reply.body.code == Some(200)
  {
  }

  /** Storage after a login reply: the token is written exactly on success. */
  function StorageAfter(storage: map<string, string>, reply: Request.Reply<LoginData>): (st: map<string, string>)
    ensures Succeeds(reply) ==> st == storage["token" := StoredText(reply.body.data.token)]
    ensures !Succeeds(reply) ==> st == storage
  {
    if Succeeds(reply) then storage["token" := StoredText(reply.body.data.token)] else storage
  }

  /** After a successful login with a non-empty token, the next request through
      the pipeline carries `Bearer <token>`; a login whose envelope lacked the
      token stores `"undefined"`, and the pipeline then sends `Bearer undefined`. */
  lemma NextRequestCarriesToken(storage: map<string, string>, reply: Request.Reply<LoginData>, headers: map<string, string>)
    requires Succeeds(reply)
    ensures var h := Request.WithBearer(headers, StorageAfter(storage, reply));
      && (Truthy(reply.body.data.token) ==> h["Authorization"] == "Bearer " + reply.body.data.token.value)
      && (reply.body.data.token.None? ==> h["Authorization"] == "Bearer undefined")
  {
  }

  class LoginPage {
    var loading: bool
    var posts: seq<LoginValues>

    constructor ()
      ensures !loading && posts == []
    {
      loading := false;
      posts := [];
    }

    /** `handleLogin` up to its `await`: loading starts and `POST /login` goes out. */
    method HandleLogin(values: LoginValues)
      modifies this
      ensures loading
      ensures posts == old(posts) + [values]
    {
      loading := true;
      posts := posts + [values];
    }

    /** `handleLogin` after its `await`. On success the token is stored, the
        success toast raised and `/work` queued; a resolution with another code
        changes nothing; a rejection leaves storage alone and raises
        `error.response?.error || '登录失败'` after the pipeline's toast.
        Loading ends false on every path. */
    method OnLoginReply(b: Browser, reply: Request.Reply<LoginData>)
      modifies this`loading, b`storage, b`toasts, b`location, b`scheduled
      ensures b.storage == StorageAfter(old(b.storage), reply)
      ensures b.scheduled == old(b.scheduled) + (if Succeeds(reply) then ["/work"] else [])
      ensures var s := Request.Settle(reply);
        b.toasts == old(b.toasts) + Request.InterceptorToasts(reply) +
          (if Succeeds(reply) then [Toast(Success, "登录成功")]
           else if s.Rejected? then [Toast(Error, OrElse(Request.ResponseError(s.reason), "登录失败"))]
           else [])
      ensures !loading
      ensures b.location == if Request.IsUnauthorized(reply) then "/" else old(b.location)
    {
      var s := Request.Receive(b, reply);
      match s {
        case Resolved(response) =>
          if response.code == Some(200) {
            b.SetItem("token", StoredText(response.data.token));
            b.Notify(Success, "登录成功");
            b.ScheduleNavigation("/work");
          }
        case Rejected(error) =>
          b.Notify(Error, OrElse(Request.ResponseError(error), "登录失败"));
      }
      loading := false;
    }
  }
}
