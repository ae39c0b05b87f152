# Employee-management dashboard: client decision logic in Dafny

This project models the decision logic and state of an admin dashboard's
browser client. The client is a React/antd single-page application. The model
covers six pieces:

- **the request pipeline** (`src/utils/request.ts`). It is the shared axios
  instance. Its request interceptor attaches `Bearer <token>` when a token is
  stored. Its response interceptor sorts each reply into exactly one outcome:
  a business rejection (a truthy `code` other than 200), a resolution with the
  whole envelope, or a transport rejection. A transport rejection redirects to
  `/` on HTTP 401.
- **the chat panel** (`src/components/ChatPanel.tsx`): the roster, the message
  log, the selected contact, the input box, and the socket's phase and installed
  `onmessage` handler.
- **the work board** (`src/pages/WorkBoardPage/index.tsx`): the role-filtered
  menu, the initial selected key, menu clicks saved to storage, the collapse
  toggle, and the key-to-content lookup.
- **the attendance card** (`src/components/Attendance.tsx`): today's sign-in
  status derived from the month's records, the button rules, the fetch and
  sign-in/sign-out refetch logic, and the cell renderers.
- **registration** (`src/pages/RegisterPage/index.tsx`): the field rules, the
  confirm-password validator, endpoint selection on `secret_key`, shaping of
  the submitted data, and navigation on success.
- **login** (`src/pages/LoginHomePage/index.tsx`): the field rules, plus writing
  the token to storage only on `code === 200`.

The browser is one `Web.Browser` object that every component works on:

- `localStorage` is a `map<string, string>`;
- toasts are an appended `seq<Toast>`;
- `window.location` is a `location` field;
- router navigations queued behind a `setTimeout` are appended to `scheduled`.

JavaScript truthiness is written out: `Web.Truthy` and `Web.OrElse` model `||`
on strings, and `Web.Trim` models `String.prototype.trim`. A stored item or
form value that JavaScript would see as `null` or `undefined` becomes `None`.

Each asynchronous handler is split at its `await` into two methods:

- the first records the request it sends, and sets `loading` where the
  handler does (the sign-in and sign-out handlers do not); what the handler's
  closure keeps across the `await`, such as the month selected when a sign
  button was clicked, it returns for the second to use;
- the second receives the transport's reply, runs it through the pipeline's
  response interceptor (`Request.Receive`), and applies the component's logic.

So a component's toasts come after the pipeline's own toasts, as in the
program. For example, a business error while loading attendance raises two
toasts.

The model follows what the code does:

- The pipeline resolves with the whole envelope, not with its `data`.
- The pipeline never clears the token. Only an HTTP-level 401 redirects. An
  envelope that carries `code: 401` over a successful exchange is an ordinary
  business rejection (`Request.EnvelopeCode401IsBusiness`).
- The chat panel has no reconnect logic, no `onclose` handler and no
  roster/presence merge. A roster load replaces the list.
- The chat panel's `onmessage` slot is written twice. The connection effect
  installs a handler that appends to the log. Once the socket opens and is
  stored in `ws`, the presence effect overwrites that handler with one that
  only marks the sender online. From then on, inbound frames never reach the
  log (`Chat.PresenceHandlerKeepsLog`, `Chat.AfterOpenFramesSkipLog`).
- The roster fetch bypasses the pipeline. It builds `Bearer ${token}` without
  a check, so with no token it sends the text `Bearer null`
  (`Chat.RosterAuthorization`).

## Model

| member | source | states |
|---|---|---|
| `Web.Trim` | src/components/ChatPanel.tsx:93 | the trimmed text is a contiguous piece of the input with only whitespace before and after it; it is empty exactly when the input is all whitespace, and otherwise starts and ends with a non-space |
| `Request.Settle` | src/utils/request.ts:19-36 | a delivered body resolves exactly when its code is 200, 0 or missing, and resolves with the same whole body; any other body rejects with that same body; a transport error rejects with that same error |
| `Request.FailureText` | src/utils/request.ts:23-33 | a business rejection's text is the envelope's `message` when non-empty, else `Error`; a transport error's text is the reply's `data.message` when non-empty, else the error's own `message` |
| `Request.InterceptorToasts` | src/utils/request.ts:22-34 | one error toast carrying `FailureText` on every rejection, none on a resolution |
| `Request.Receive` | src/utils/request.ts:18-37 | the outcome is `Settle`'s; the toasts grow by exactly the interceptor's toasts; location becomes `/` exactly on an HTTP 401 and is otherwise unchanged; storage is untouched |
| `Request.ToastIffRejected` | src/utils/request.ts:19-36 | a reply is rejected exactly when it raises a toast, so no reply both resolves and reports a failure |
| `Request.EnvelopeCode401IsBusiness` | src/utils/request.ts:22-32 | an envelope with code 401 is a business rejection with that body and does not redirect |
| `Request.WithBearer` | src/utils/request.ts:10-15 | with a non-empty stored token, `Authorization` is `Bearer <token>` and every other header is kept; with an absent or empty token the headers are unchanged |
| `Request.InterceptRequest` | src/utils/request.ts:10-16 | the same config object is returned, its headers updated as `WithBearer` says, its URL and the storage unchanged |
| `Request.ResponseError` | src/pages/RegisterPage/index.tsx:49-51 | `error.response?.error` is always absent for a business rejection, whose reason is the envelope |
| `Chat.MarkOnline` | src/components/ChatPanel.tsx:67-69 | a presence frame keeps the roster's length, order, ids and names; each contact is online afterwards exactly when it was before or its id equals `senderId` |
| `Chat.MarkOnlineIdempotent` | src/components/ChatPanel.tsx:67-69 | applying the same presence frame twice equals applying it once |
| `Chat.MarkOnlineUnknownSender` | src/components/ChatPanel.tsx:67-69 | a presence frame for an id not on the roster leaves the roster unchanged |
| `Chat.AppendHandlerLogsEveryFrame` | src/components/ChatPanel.tsx:83-86 | under the append handler a run of frames yields `old log + frames` and leaves the roster unchanged |
| `Chat.PresenceHandlerKeepsLog` | src/components/ChatPanel.tsx:62-70 | under the presence handler no run of frames changes the log; the roster keeps length, ids and names, and no contact goes offline |
| `Chat.RosterAuthorization` | src/components/ChatPanel.tsx:36-43 | with a non-empty token the roster header equals the pipeline's; with no token it is `Bearer null`, where the pipeline sends no header |
| `Chat.AfterOpenFramesSkipLog` | src/components/ChatPanel.tsx:61-86 | after `onopen` and the presence effect, any run of frames leaves the message log as it was and keeps the roster's length |
| `Chat.ChatPanel.constructor` | src/components/ChatPanel.tsx:28-34 | the state cells start empty: no selection, empty input and log, `ws` unset, loading true |
| `Chat.ChatPanel.Mount` | src/components/ChatPanel.tsx:74-86 | the socket starts connecting with the append handler installed; the roster fetch's header is `RosterAuthorization` |
| `Chat.ChatPanel.OnRoster` | src/components/ChatPanel.tsx:47-56 | success replaces the roster with `response.data.data`; failure keeps it and adds one toast; loading ends false |
| `Chat.ChatPanel.OnOpen` | src/components/ChatPanel.tsx:78-81 | the socket is open and `ws` is set; the handler is not yet replaced |
| `Chat.ChatPanel.WsEffect` | src/components/ChatPanel.tsx:61-71 | once `ws` is set the presence handler is installed; before that nothing changes |
| `Chat.ChatPanel.TransportClosed` | src/components/ChatPanel.tsx:93 | the socket is closed; nothing else changes, so there is no reconnect |
| `Chat.ChatPanel.OnFrame` | src/components/ChatPanel.tsx:61-86 | a frame on the open socket is handled by the installed handler: appended under the append handler, a presence update under the presence handler, which never changes the log |
| `Chat.ChatPanel.Select` | src/components/ChatPanel.tsx:113 | the clicked contact becomes the selection; the log is not cleared |
| `Chat.ChatPanel.SetInput` | src/components/ChatPanel.tsx:160 | the input becomes the typed text |
| `Chat.ChatPanel.CanSend` | src/components/ChatPanel.tsx:93 | the send guard holds exactly when `ws` is set and open, the selection is neither `null` nor `0`, and the input is not all whitespace |
| `Chat.ChatPanel.SendMessage` | src/components/ChatPanel.tsx:92-102 | transmits exactly when `ws` is set and open, the selection is non-null and non-zero, and the trimmed input is non-empty; the frame carries the selection and the untrimmed input, then the input is cleared; otherwise nothing is sent and the input is kept; the log is never touched |
| `WorkBoard.Keep` | src/pages/WorkBoardPage/index.tsx:76-78 | the filter keeps exactly the items whose key is allowed |
| `WorkBoard.KeepIsSubsequence` | src/pages/WorkBoardPage/index.tsx:69-78 | the filtered items are an order-preserving subsequence of the input items |
| `WorkBoard.AdminItems` | src/pages/WorkBoardPage/index.tsx:76-77 | the admin's menu is the first three base items, in order |
| `WorkBoard.OtherItems` | src/pages/WorkBoardPage/index.tsx:78 | any other role, `null` included, gets the last two base items, in order |
| `WorkBoard.VisibleKeys` | src/pages/WorkBoardPage/index.tsx:68-79 | visible keys are exactly `["1","2","3"]` for the admin and `["3","4"]` otherwise, a subsequence of the base items |
| `WorkBoard.InitialKey` | src/pages/WorkBoardPage/index.tsx:81-84 | for the admin, the saved key if it is non-empty, else `"1"`; for any other role `"3"` |
| `WorkBoard.InitialKeyIsVisible` | src/pages/WorkBoardPage/index.tsx:76-84 | the initial key is on the visible menu unless the admin's saved key is one the admin menu lacks |
| `WorkBoard.Content` | src/pages/WorkBoardPage/index.tsx:95-118 | keys 1 to 4 show charts, the employee table, the placeholder text and the attendance card; any other key shows nothing |
| `WorkBoard.WorkBoardPage.constructor` | src/pages/WorkBoardPage/index.tsx:51-84 | not collapsed; `userRole` is the stored role; the selected key is `InitialKey` of that role and the saved key |
| `WorkBoard.WorkBoardPage.ToggleCollapsed` | src/pages/WorkBoardPage/index.tsx:86-88 | the flag flips, so two toggles restore it |
| `WorkBoard.WorkBoardPage.HandleMenuClick` | src/pages/WorkBoardPage/index.tsx:90-93 | the clicked key is selected and saved under `selectedMenuKey`; no other stored entry changes |
| `WorkBoard.WorkBoardPage.CheckUserRole` | src/pages/WorkBoardPage/index.tsx:56-60 | afterwards `userRole` is the stored role, and it was written exactly when the two differed |
| `Attendance.FirstOn` | src/components/Attendance.tsx:49 | `find` yields the first record dated today, or none when no record is |
| `Attendance.TodayStatus` | src/components/Attendance.tsx:47-51 | the status is signed-in exactly when the first record dated today exists and has a non-empty sign-in time |
| `Attendance.NoRecordTodayIsNotSignedIn` | src/components/Attendance.tsx:49-50 | with no record for today the status is not-signed-in |
| `Attendance.ExactlyOneButtonEnabled` | src/components/Attendance.tsx:127-135 | sign-in is disabled when signed in, sign-out when not, so exactly one is enabled |
| `Attendance.SignInCaption` | src/components/Attendance.tsx:129 | the sign-in button reads `已签到` exactly when it is disabled |
| `Attendance.TimeCell` | src/components/Attendance.tsx:83-89 | an empty or missing time renders its placeholder; a non-empty one renders as itself |
| `Attendance.StatusBadge` | src/components/Attendance.tsx:95-101 | status `正常` renders green with a check mark, any other status red with a warning sign, followed by the status text |
| `Attendance.AttendancePanel.constructor` | src/components/Attendance.tsx:19-22 | not loading, status not-signed-in, no month picked, no records |
| `Attendance.AttendancePanel.Mount` | src/components/Attendance.tsx:25-28 | the current month is fetched, since the effect's closure sees the first render's undefined month |
| `Attendance.AttendancePanel.FetchAttendance` | src/components/Attendance.tsx:31-35 | loading starts and the month is requested |
| `Attendance.AttendancePanel.OnAttendanceReply` | src/components/Attendance.tsx:34-43 | a resolved fetch replaces the records and recomputes the status from the same list; a rejected one keeps both and adds one toast after the pipeline's; loading ends false; location becomes `/` exactly on an HTTP 401 |
| `Attendance.AttendancePanel.HandleSignIn` | src/components/Attendance.tsx:54-56 | `POST /sign-records/sign-in` goes out and the month selected at the click is returned |
| `Attendance.AttendancePanel.HandleSignOut` | src/components/Attendance.tsx:66-68 | `POST /sign-records/sign-out` goes out and the month selected at the click is returned |
| `Attendance.AttendancePanel.AfterSign` | src/components/Attendance.tsx:56-74 | on success one success toast and a refetch of the month selected at the click, or of the current month; on failure one error toast, no refetch and loading unchanged; location becomes `/` exactly on an HTTP 401 |
| `Attendance.AttendancePanel.OnSignInReply` | src/components/Attendance.tsx:56-62 | a successful sign-in raises `签到成功` and refetches the month selected at the click, or the current one; a failure raises `签到失败` after the pipeline's toast and refetches nothing; location becomes `/` exactly on an HTTP 401 |
| `Attendance.AttendancePanel.OnSignOutReply` | src/components/Attendance.tsx:68-74 | a successful sign-out raises `签退成功` and refetches the month selected at the click, or the current one; a failure raises `签退失败` after the pipeline's toast and refetches nothing; location becomes `/` exactly on an HTTP 401 |
| `Attendance.AttendancePanel.OnMonthChange` | src/components/Attendance.tsx:114-117 | a picked month is stored and fetched; clearing (antd passes `null`) stores none and fetches nothing |
| `Forms.BoundedAcceptedIff` | src/pages/RegisterPage/index.tsx:71-75 | a required field with `min` and `max` accepts exactly present values whose length is in range |
| `Forms.UsernameAcceptedIff` | src/pages/RegisterPage/index.tsx:72-74 | the username is accepted exactly when it has 4 to 20 characters |
| `Forms.PasswordAcceptedIff` | src/pages/RegisterPage/index.tsx:108-110 | the password is accepted exactly when it has 6 to 20 characters |
| `Register.ConfirmValidator` | src/pages/RegisterPage/index.tsx:124-128 | the validator accepts exactly an absent or empty confirmation or one equal to the password |
| `Register.ConfirmAcceptedIff` | src/pages/RegisterPage/index.tsx:122-128 | required plus the validator accept exactly a non-empty confirmation equal to the password |
| `Register.FormValidIff` | src/pages/RegisterPage/index.tsx:70-131 | the form is accepted exactly when the username has 4 to 20 characters, the email is present and well-formed, the phone has 11, the password 6 to 20, and the confirmation equals the password |
| `Register.Endpoint` | src/pages/RegisterPage/index.tsx:30 | the URL is one of the two registration routes, `/admin/register` exactly when `secret_key` is truthy |
| `Register.SubmitData` | src/pages/RegisterPage/index.tsx:33-35 | every field but `secret_key`, `confirmPassword` included, is the form's own; a truthy key is kept, any other is sent as undefined |
| `Register.SubmissionShape` | src/pages/RegisterPage/index.tsx:30-35 | the admin endpoint always gets the values unchanged, key included; the ordinary endpoint exactly never gets a key |
| `Register.RegisterPage.HandleSubmit` | src/pages/RegisterPage/index.tsx:22-37 | loading starts and one POST goes out to the chosen URL with the shaped data |
| `Register.RegisterPage.OnRegisterReply` | src/pages/RegisterPage/index.tsx:37-54 | navigation to `/` and the success toast happen exactly on code 200; a rejection raises `error.response?.error` or `注册失败`; storage is untouched; location becomes `/` exactly on an HTTP 401; loading ends false |
| `Register.NavigatesOnlyOnCode200` | src/pages/RegisterPage/index.tsx:41-47 | the page sees code 200 exactly when the server delivered an envelope with code 200 |
| `Login.FormValidIff` | src/pages/LoginHomePage/index.tsx:83-97 | the form is accepted exactly when the username has 4 to 20 characters and the password 6 to 20 |
| `Login.StoredText` | src/pages/LoginHomePage/index.tsx:46 | storage holds the token's text, or `undefined` when the envelope carried no token (a JSON `null` token is not modelled) |
| `Login.SucceedsIff` | src/pages/LoginHomePage/index.tsx:43 | the login succeeds exactly when the server delivered an envelope with code 200 |
| `Login.StorageAfter` | src/pages/LoginHomePage/index.tsx:43-46 | the token is written exactly on success; otherwise storage is unchanged |
| `Login.NextRequestCarriesToken` | src/pages/LoginHomePage/index.tsx:43-46 | after a successful login the pipeline's next request carries `Bearer <token>`, or `Bearer undefined` when no token was sent |
| `Login.LoginPage.HandleLogin` | src/pages/LoginHomePage/index.tsx:35-39 | loading starts and the POST goes out with the values |
| `Login.LoginPage.OnLoginReply` | src/pages/LoginHomePage/index.tsx:35-60 | storage becomes `StorageAfter`; `/work` is queued exactly on success; a rejection raises `error.response?.error` or `登录失败`; location becomes `/` exactly on an HTTP 401; loading ends false |

## Left out

- Rendering is not modelled: JSX layout, styles and antd widget mechanics. This includes which rule message a form shows, table pagination and the `List` and `Table` widgets. The model keeps only the values the views decide on.
- antd's email pattern (`type: 'email'`) belongs to the library. The form predicates take it as the parameter `isEmail`.
- The chart components, the employee table, the app shell, the router and the type declarations are not part of this model. They are view configuration or library glue, and the chart components also format floating-point numbers.
- The axios instance configuration (base URL, 5000 ms timeout) is not modelled. Neither is the WebSocket transport itself: the connection URI, `close` on unmount, and `JSON.parse` / `JSON.stringify`. Inbound frames are modelled after parsing. A field that is missing or not an integer is `None`.
- `Date.now()` and `moment()` are parameters (`now`, `today`, `thisMonth`). A picked month is its `YYYY-MM` text.
- The `setTimeout` delay is left out: a navigation is queued in `scheduled` and never fired.
- React's effect scheduling and async interleaving are left out. So is the cross-tab `storage` event. The model's methods are the events, and a caller may invoke them in any order the types allow. `Chat.ChatPanel.WsEffect` stands for the effect React runs after `ws` changes.
- Numbers are unbounded integers. The model does not cover `NaN`, fractional codes, or an envelope `code` that is not a number, such as the string `"200"`.
- Attendance.AttendancePanel.OnAttendanceReply: takes the records at `response.data.data`. It does not model a reply where that path is missing or is not an array, in which case `checkCurrentStatus` would throw after `setDataSource`.
- Login.LoginPage.OnLoginReply: does not model an envelope whose `data` is `null` or missing. There, reading `response.data.token` would throw inside the `try`.
- Request.Settle: a delivered body is always an object. A `null` body makes `res.code` throw inside the success callback; the call then rejects with that `TypeError` and raises no toast. This case is not modelled.
- Chat.ChatPanel.OnRoster: the roster reply always carries a list. The raw axios call resolves on any 2xx reply, so an envelope without a list at `data.data` would set the roster to `undefined` or `null`, and the next presence frame's `map` would throw. A `null` body would make line 50 throw into the `catch`, which keeps the roster and raises the toast. Neither case is modelled.
- WorkBoard.Content: a key is looked up among the map's own four keys. A tampered saved key that names an inherited object property, such as `constructor` or `__proto__`, would make `menuKeyComponentMap[selectedKey]` yield a prototype member that React cannot render. Such keys are not modelled.
- Login.StoredText: a JSON `null` token would be stored as the text `null`. The model's login data has only a present or an absent token, and an absent one is stored as `undefined`.
