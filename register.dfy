/** The registration page (src/pages/RegisterPage/index.tsx): its field rules,
    the confirm-password validator, and `handleSubmit`, which picks the admin or
    the ordinary endpoint from `secret_key`, shapes the submitted data, and
    queues the return to the login page when the backend answers code 200. */
module Register {
  import opened Web
  import opened Forms
  import Request

  /** The form's values as `onFinish` hands them over; a field never filled in
      is `None`. */
  datatype RegisterValues = RegisterValues(
    username: Option<string>,
    email: Option<string>,
    phone: Option<string>,
    password: Option<string>,
    confirmPassword: Option<string>,
    secretKey: Option<string>)

  const EmailRules: seq<Rule> := [Required, EmailFormat]

  const PhoneRules: seq<Rule> := [Required, Len(11)]

  /** The confirm-password validator (`!value || getFieldValue('password') === value`):
      it lets an absent or empty confirmation through and otherwise accepts
      exactly the password itself. */
  predicate ConfirmValidator(value: Option<string>, password: Option<string>): (ok: bool)
    ensures ok <==> value == None || value == Some("") || value == password
  {
    !Truthy(value) || password == value
  }

  /** Every field's rules pass; `secret_key`'s only rule is `required: false`. */
  predicate FormValid(v: RegisterValues, isEmail: string -> bool) {
    && Accepts(UsernameRules, v.username, isEmail)
    && Accepts(EmailRules, v.email, isEmail)
    && Accepts(PhoneRules, v.phone, isEmail)
    && Accepts(PasswordRules, v.password, isEmail)
    && Accepts([Required], v.confirmPassword, isEmail) && ConfirmValidator(v.confirmPassword, v.password)
  }

  /** The validator on its own lets an empty confirmation through and leaves
      it to `required`; together the two accept exactly a non-empty
      confirmation equal to the password. */
  lemma ConfirmAcceptedIff(value: Option<string>, password: Option<string>, isEmail: string -> bool)
    ensures Accepts([Required], value, isEmail) && ConfirmValidator(value, password) <==>
      Truthy(value) && password == value
  {
    if Accepts([Required], value, isEmail) {
      assert Holds([Required][0], value, isEmail);
    }
  }

  /** The whole form is accepted exactly when the username has 4 to 20
      characters, the email is present and well-formed, the phone has exactly
      11, the password 6 to 20, and the confirmation equals the password. */
  lemma FormValidIff(v: RegisterValues, isEmail: string -> bool)
    ensures FormValid(v, isEmail) <==>
      && v.username.Some? && 4 <= |v.username.value| <= 20
      && Truthy(v.email) && isEmail(v.email.value)
      && v.phone.Some? && |v.phone.value| == 11
      && v.password.Some? && 6 <= |v.password.value| <= 20
      && v.confirmPassword == v.password
  {
    UsernameAcceptedIff(v.username, isEmail);
    PasswordAcceptedIff(v.password, isEmail);
    ConfirmAcceptedIff(v.confirmPassword, v.password, isEmail);
    if Accepts(EmailRules, v.email, isEmail) {
      assert Holds(EmailRules[0], v.email, isEmail) && Holds(EmailRules[1], v.email, isEmail);
    }
    if Accepts(PhoneRules, v.phone, isEmail) {
      assert Holds(PhoneRules[0], v.phone, isEmail) && Holds(PhoneRules[1], v.phone, isEmail);
    }
    if Truthy(v.email) && isEmail(v.email.value) {
      assert forall i :: 0 <= i < |EmailRules| ==> Holds(EmailRules[i], v.email, isEmail);
    }
    if v.phone.Some? && |v.phone.value| == 11 {
      assert forall i :: 0 <= i < |PhoneRules| ==> Holds(PhoneRules[i], v.phone, isEmail);
    }
  }

  /** The endpoint: one of the two registration routes, the admin one exactly
      when `secret_key` is truthy. */
  function Endpoint(v: RegisterValues): (url: string)
    ensures url == "/admin/register" || url == "/register"
    ensures url == "/admin/register" <==> Truthy(v.secretKey)
  {
    if Truthy(v.secretKey) then "/admin/register" else "/register"
  }

  /** The submitted data: every field but `secret_key` is the form's own,
      `confirmPassword` included; a truthy key is kept and any other key
      (missing or empty) is sent as undefined. */
  function SubmitData(v: RegisterValues): (d: RegisterValues)
    ensures d.(secretKey := v.secretKey) == v
    ensures Truthy(v.secretKey) ==> d.secretKey == v.secretKey
    ensures !Truthy(v.secretKey) ==> d.secretKey == None
  {
    if Truthy(v.secretKey) then v else v.(secretKey := None)
  }

  /** The endpoint and the data agree: the admin endpoint always receives the
      values unchanged, key included, and the ordinary endpoint never receives
      a key. */
  lemma SubmissionShape(v: RegisterValues)
    ensures Endpoint(v) == "/admin/register" ==> SubmitData(v) == v
    ensures Endpoint(v) == "/register" <==> SubmitData(v).secretKey == None
  {
  }

  /** A POST the page sends: its URL and body. */
  datatype Post = Post(url: string, data: RegisterValues)

  class RegisterPage {
    var loading: bool
    var posts: seq<Post>

    constructor ()
      ensures !loading && posts == []
    {
      loading := false;
      posts := [];
    }

    /** `handleSubmit` up to its `await`: loading starts and the POST goes out
        to the chosen endpoint with the shaped data. */
    method HandleSubmit(values: RegisterValues)
      modifies this
      ensures loading
      ensures posts == old(posts) + [Post(Endpoint(values), SubmitData(values))]
    {
      loading := true;
      var url := if values.secretKey.Some? && values.secretKey.value != "" then "/admin/register" else "/register";
      var submitData := if values.secretKey.Some? && values.secretKey.value != "" then values else values.(secretKey := None);
      posts := posts + [Post(url, submitData)];
    }

    /** `handleSubmit` after its `await`. Only a resolved reply with code 200
        raises the success toast and queues the navigation to `/`; a resolved
        reply with another code does nothing; a rejection raises
        `error.response?.error || '注册失败'` after the pipeline's toast.
        Loading ends false on every path; storage is never written. */
    method OnRegisterReply<T>(b: Browser, reply: Request.Reply<T>)
      modifies this`loading, b`toasts, b`location, b`scheduled
      ensures var s := Request.Settle(reply);
        && var ok := s.Resolved? && s.value.code == Some(200);
        && b.scheduled == old(b.scheduled) + (if ok then ["/"] else [])
        && b.toasts == old(b.toasts) + Request.InterceptorToasts(reply) +
             (if ok then [Toast(Success, "注册成功")]
              else if s.Rejected? then [Toast(Error, OrElse(Request.ResponseError(s.reason), "注册失败"))]
              else [])
      ensures b.storage == old(b.storage)
      ensures b.location == if Request.IsUnauthorized(reply) then "/" else old(b.location)
      ensures !loading
    {
      var s := Request.Receive(b, reply);
      match s {
        case Resolved(response) =>
          if response.code == Some(200) {
            b.Notify(Success, "注册成功");
            b.ScheduleNavigation("/");
          }
        case Rejected(error) =>
          b.Notify(Error, OrElse(Request.ResponseError(error), "注册失败"));
      }
      loading := false;
    }
  }

  /** Navigation is queued exactly when the backend's envelope carries code
      200: a missing or zero code also resolves, but queues nothing. */
  lemma NavigatesOnlyOnCode200<T>(reply: Request.Reply<T>)
    ensures (Request.Settle(reply).Resolved? && Request.Settle(reply).value.code == Some(200)) <==>
      (reply.Delivered? && reply.body.code == Some(200))
  {
  }
}
