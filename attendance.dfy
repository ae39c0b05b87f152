/** The attendance card (src/components/Attendance.tsx): the month's records,
    today's sign-in status derived from them, the sign-in and sign-out buttons
    that status enables, and the month picker. The clock (`moment()`) is a
    parameter: `today` is its `YYYY-MM-DD` text and `thisMonth` its `YYYY-MM` text. */
module Attendance {
  import opened Web
  import Request

  /** One row of `/attendance`; a time the server left empty is `None` or `""`. */
  datatype AttendanceRecord = AttendanceRecord(date: string, signInTime: Option<string>, signOutTime: Option<string>, status: string)

  /** The envelope's `data` of `/attendance`: the component reads the records at
      `response.data.data`, where `response` is already the envelope the
      pipeline resolves with. */
  datatype RecordsPage = RecordsPage(data: seq<AttendanceRecord>)

  /** `'已签到'` and `'未签到'`. */
  datatype SignStatus = SignedIn | NotSignedIn

  /** The position of the record `records.find(r => r.date === today)` returns:
      the first one dated today, or none when no record is. */
  function FirstOn(records: seq<AttendanceRecord>, today: string): (r: Option<nat>)
    ensures r.Some? ==> r.value < |records| && records[r.value].date == today
    ensures r.Some? ==> forall j :: 0 <= j < r.value ==> records[j].date != today
    ensures r.None? ==> forall j :: 0 <= j < |records| ==> records[j].date != today
  {
    if records == [] then None
    else if records[0].date == today then Some(0)
    else
      var rest := FirstOn(records[1..], today);
      if rest.Some? then Some(rest.value + 1) else None
  }

  /** `checkCurrentStatus`: signed in exactly when the first record dated today
      exists and has a non-empty sign-in time; a later record for the same day
      is never consulted. */
  function TodayStatus(records: seq<AttendanceRecord>, today: string): (st: SignStatus)
    ensures st == SignedIn <==>
      exists i :: 0 <= i < |records| && records[i].date == today && Truthy(records[i].signInTime) &&
        forall j :: 0 <= j < i ==> records[j].date != today
  {
    var i := FirstOn(records, today);
    if i.Some? && Truthy(records[i.value].signInTime) then SignedIn else NotSignedIn
  }

  /** With no record for today the status is `'未签到'`. */
  lemma NoRecordTodayIsNotSignedIn(records: seq<AttendanceRecord>, today: string)
    requires forall j :: 0 <= j < |records| ==> records[j].date != today
    ensures TodayStatus(records, today) == NotSignedIn
  {
  }

  /** `disabled={currentStatus === '已签到'}` on the sign-in button. */
  predicate SignInDisabled(s: SignStatus) { s == SignedIn }

  /** `disabled={currentStatus === '未签到'}` on the sign-out button. */
  predicate SignOutDisabled(s: SignStatus) { s == NotSignedIn }

  /** In every status exactly one of the two buttons is enabled. */
  lemma ExactlyOneButtonEnabled(s: SignStatus)
    ensures !SignInDisabled(s) <==> SignOutDisabled(s)
  {
  }

  /** The sign-in button's caption. */
  function SignInCaption(s: SignStatus): (c: string)
    ensures c == "已签到" <==> SignInDisabled(s)
  {
    if s == SignedIn then "已签到" else "点击签到"
  }

  /** A table cell: the text itself, or a red placeholder. */
  datatype Cell = Text(text: string) | Placeholder(text: string)

  /** `text || <span>{placeholder}</span>`: a non-empty time shows as itself,
      anything else as the placeholder. */
  function TimeCell(t: Option<string>, placeholder: string): (c: Cell)
    ensures c.Placeholder? <==> !Truthy(t)
    ensures c.Text? ==> Some(c.text) == t
    ensures c.Placeholder? ==> c.text == placeholder
  {
    if Truthy(t) then Text(t.value) else Placeholder(placeholder)
  }

  function SignInCell(r: AttendanceRecord): Cell { TimeCell(r.signInTime, "未签到") }

  function SignOutCell(r: AttendanceRecord): Cell { TimeCell(r.signOutTime, "未签退") }

  /** The status column: colour, icon and the status text itself. */
  datatype Badge = Badge(color: string, icon: string, text: string)

  /** Only `'正常'` renders green with a check mark; every other status,
      including the empty one, renders red with a warning sign. */
  function StatusBadge(status: string): (b: Badge)
    ensures b.text == status
    ensures status == "正常" ==> b.color == "#52c41a" && b.icon == "\U{2705}"
    ensures status != "正常" ==> b.color == "#ff4d4f" && b.icon == "\U{26A0}\U{FE0F}"
  {
    if status == "正常" then Badge("#52c41a", "\U{2705}", status)
    else Badge("#ff4d4f", "\U{26A0}\U{FE0F}", status)
  }

  /** `selectedMonth || moment()`, formatted. */
  function MonthOrCurrent(selected: Option<string>, thisMonth: string): string {
    if selected.Some? then selected.value else thisMonth
  }

  class AttendancePanel {
    var loading: bool
    var currentStatus: SignStatus
    var selectedMonth: Option<string>
    var dataSource: seq<AttendanceRecord>
    /** The months requested from `/attendance`, in the order the requests went out. */
    var fetches: seq<string>
    /** The sign-in and sign-out POSTs, by path, in the order they went out. */
    var signPosts: seq<string>

    constructor ()
      ensures !loading && currentStatus == NotSignedIn && selectedMonth == None
      ensures dataSource == [] && fetches == [] && signPosts == []
    {
      loading := false;
      currentStatus := NotSignedIn;
      selectedMonth := None;
      dataSource := [];
      fetches := [];
      signPosts := [];
    }

    /** The mount effect: its closure sees the first render's `selectedMonth`,
        which is undefined, so it fetches the current month whatever has been
        picked since. */
    method Mount(thisMonth: string)
      modifies this`loading, this`fetches
      ensures loading
      ensures fetches == old(fetches) + [thisMonth]
    {
      FetchAttendance(MonthOrCurrent(None, thisMonth));
    }

    /** `fetchAttendance` up to its `await`: loading starts and the request goes out. */
    method FetchAttendance(month: string)
      modifies this`loading, this`fetches
      ensures loading && fetches == old(fetches) + [month]
    {
      loading := true;
      fetches := fetches + [month];
    }

    /** `fetchAttendance` after its `await`. A resolved fetch replaces the
        records and recomputes the status from that same list; a rejected one
        keeps both and adds the component's toast after the pipeline's; loading
        ends false either way. */
    method OnAttendanceReply(b: Browser, reply: Request.Reply<RecordsPage>, today: string)
      modifies this`loading, this`dataSource, this`currentStatus, b`toasts, b`location
      ensures var s := Request.Settle(reply);
        && (s.Resolved? ==> dataSource == s.value.data.data && currentStatus == TodayStatus(dataSource, today))
        && (s.Rejected? ==> dataSource == old(dataSource) && currentStatus == old(currentStatus))
        && b.toasts == old(b.toasts) + Request.InterceptorToasts(reply) +
             (if s.Rejected? then [Toast(Error, "获取考勤数据失败")] else [])
      ensures !loading
      ensures b.location == if Request.IsUnauthorized(reply) then "/" else old(b.location)
    {
      var s := Request.Receive(b, reply);
      if s.Resolved? {
        dataSource := s.value.data.data;
        currentStatus := TodayStatus(s.value.data.data, today);
      } else {
        b.Notify(Error, "获取考勤数据失败");
      }
      loading := false;
    }

    /** `handleSignIn` up to its `await`: `POST /sign-records/sign-in` goes out,
        and the closure keeps the `selectedMonth` of the render the click came
        from, which the reply half reads. */
    method HandleSignIn() returns (picked: Option<string>)
      modifies this`signPosts
      ensures signPosts == old(signPosts) + ["/sign-records/sign-in"]
      ensures picked == selectedMonth
    {
      signPosts := signPosts + ["/sign-records/sign-in"];
      picked := selectedMonth;
    }

    /** `handleSignOut` up to its `await`: `POST /sign-records/sign-out` goes out,
        and the closure keeps the `selectedMonth` of the click. */
    method HandleSignOut() returns (picked: Option<string>)
      modifies this`signPosts
      ensures signPosts == old(signPosts) + ["/sign-records/sign-out"]
      ensures picked == selectedMonth
    {
      signPosts := signPosts + ["/sign-records/sign-out"];
      picked := selectedMonth;
    }

    /** The common tail of `handleSignIn` and `handleSignOut`: on success one
        success toast and a refetch of the month selected at the click (or the
        current one, read when the reply arrives); on failure one error toast
        after the pipeline's and no refetch. */
    method AfterSign<T>(b: Browser, reply: Request.Reply<T>, picked: Option<string>, thisMonth: string, okText: string, failText: string)
      modifies this`loading, this`fetches, b`toasts, b`location
      ensures var s := Request.Settle(reply);
        && (s.Resolved? ==> fetches == old(fetches) + [MonthOrCurrent(picked, thisMonth)] && loading)
        && (s.Rejected? ==> fetches == old(fetches) && loading == old(loading))
        && b.toasts == old(b.toasts) + Request.InterceptorToasts(reply) +
             [if s.Resolved? then Toast(Success, okText) else Toast(Error, failText)]
      ensures b.location == if Request.IsUnauthorized(reply) then "/" else old(b.location)
    {
      var s := Request.Receive(b, reply);
      if s.Resolved? {
        b.Notify(Success, okText);
        FetchAttendance(MonthOrCurrent(picked, thisMonth));
      } else {
        b.Notify(Error, failText);
      }
    }

    /** `handleSignIn` after `POST /sign-records/sign-in` settles; `picked` is
        what `HandleSignIn` returned. */
    method OnSignInReply<T>(b: Browser, reply: Request.Reply<T>, picked: Option<string>, thisMonth: string)
      modifies this`loading, this`fetches, b`toasts, b`location
      ensures var s := Request.Settle(reply);
        && (s.Resolved? ==> fetches == old(fetches) + [MonthOrCurrent(picked, thisMonth)] && loading)
        && (s.Rejected? ==> fetches == old(fetches) && loading == old(loading))
        && b.toasts == old(b.toasts) + Request.InterceptorToasts(reply) +
             [if s.Resolved? then Toast(Success, "签到成功") else Toast(Error, "签到失败")]
      ensures b.location == if Request.IsUnauthorized(reply) then "/" else old(b.location)
    {
      AfterSign(b, reply, picked, thisMonth, "签到成功", "签到失败");
    }

    /** `handleSignOut` after `POST /sign-records/sign-out` settles; `picked` is
        what `HandleSignOut` returned. */
    method OnSignOutReply<T>(b: Browser, reply: Request.Reply<T>, picked: Option<string>, thisMonth: string)
      modifies this`loading, this`fetches, b`toasts, b`location
      ensures var s := Request.Settle(reply);
        && (s.Resolved? ==> fetches == old(fetches) + [MonthOrCurrent(picked, thisMonth)] && loading)
        && (s.Rejected? ==> fetches == old(fetches) && loading == old(loading))
        && b.toasts == old(b.toasts) + Request.InterceptorToasts(reply) +
             [if s.Resolved? then Toast(Success, "签退成功") else Toast(Error, "签退失败")]
      ensures b.location == if Request.IsUnauthorized(reply) then "/" else old(b.location)
    {
      AfterSign(b, reply, picked, thisMonth, "签退成功", "签退失败");
    }

    /** The month picker's `onChange`: a picked month is stored and fetched;
        clearing the picker (antd passes `null`) stores none and fetches nothing. */
    method OnMonthChange(m: Option<string>)
      modifies this`selectedMonth, this`loading, this`fetches
      ensures selectedMonth == m
      ensures fetches == old(fetches) + (if m.Some? then [m.value] else [])
      ensures m.Some? ==> loading
      ensures m.None? ==> loading == old(loading)
    {
      selectedMonth := m;
      if m.Some? {
        FetchAttendance(m.value);
      }
    }

    predicate SignInButtonDisabled()
      reads this
    {
      SignInDisabled(currentStatus)
    }

    predicate SignOutButtonDisabled()
      reads this
    {
      SignOutDisabled(currentStatus)
    }
  }
}
