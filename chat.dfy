/** The chat panel (src/components/ChatPanel.tsx): the contact roster, the
    message log, the selected contact, the input box, and one WebSocket whose
    `onmessage` slot is written twice — first by the connection effect with a
    handler that appends to the log, then, once the socket has opened and been
    stored in `ws`, by the presence effect with a handler that only marks the
    sender online. */
module Chat {
  import opened Web
  import Request

  /** A roster entry (`ChatUser`). */
  datatype ChatUser = ChatUser(id: int, name: string, online: bool)

  /** An inbound frame after `JSON.parse`; a field the frame lacks (or that is not
      of the expected type) is `None`. The log stores frames exactly as parsed. */
  datatype Frame = Frame(senderId: Option<int>, content: Option<string>, timestamp: Option<int>)

  /** An outbound frame, before `JSON.stringify`. */
  datatype Outbound = Outbound(receiverId: int, content: string, timestamp: int)

  /** The socket's `readyState` as the panel sees it; `Unopened` is before the
      connection effect has created the socket. The panel installs no `onclose`
      handler, so `Closed` changes nothing but the send guard. */
  datatype Phase = Unopened | Connecting | Open | Closed

  /** Which function sits in the socket's `onmessage` slot. */
  datatype Handler = NoHandler | AppendToLog | MarkPresence

  /** The presence update `prev.map(emp => emp.id === msg.senderId ? {...emp, online: true} : emp)`:
      the same contacts in the same order with the same ids and names, each
      online afterwards exactly when it was online before or is the sender. */
  function MarkOnline(users: seq<ChatUser>, sender: Option<int>): (r: seq<ChatUser>)
    ensures |r| == |users|
    ensures forall i :: 0 <= i < |r| ==> r[i].id == users[i].id && r[i].name == users[i].name
    ensures forall i :: 0 <= i < |r| ==> r[i].online == (users[i].online || sender == Some(users[i].id))
  {
    if users == [] then []
    else
      var u := users[0];
      [if sender == Some(u.id) then u.(online := true) else u] + MarkOnline(users[1..], sender)
  }

  /** Marking a sender online twice is the same as marking it once. */
  lemma MarkOnlineIdempotent(users: seq<ChatUser>, sender: Option<int>)
    ensures MarkOnline(MarkOnline(users, sender), sender) == MarkOnline(users, sender)
  {
  }

  /** A presence frame whose sender is not on the roster changes nothing: no
      contact appears and no flag moves. */
  lemma MarkOnlineUnknownSender(users: seq<ChatUser>, sender: Option<int>)
    requires forall i :: 0 <= i < |users| ==> sender != Some(users[i].id)
    ensures MarkOnline(users, sender) == users
  {
  }

  /** The part of the panel's state that inbound frames can change. */
  datatype ChatView = ChatView(users: seq<ChatUser>, log: seq<Frame>)

  /** What the installed handler does with one frame. */
  function Deliver(h: Handler, v: ChatView, f: Frame): ChatView {
    match h
    case NoHandler => v
    case AppendToLog => v.(log := v.log + [f])
    case MarkPresence => v.(users := MarkOnline(v.users, f.senderId))
  }

  /** A run of frames delivered one at a time, in arrival order, to the same handler. */
  function DeliverAll(h: Handler, v: ChatView, fs: seq<Frame>): ChatView
    decreases |fs|
  {
    if fs == [] then v else DeliverAll(h, Deliver(h, v, fs[0]), fs[1..])
  }

  /** Under the append handler every frame lands at the end of the log, in
      order, the existing entries untouched, and the roster is left as it was. */
  lemma {:induction false} AppendHandlerLogsEveryFrame(v: ChatView, fs: seq<Frame>)
    ensures DeliverAll(AppendToLog, v, fs) == ChatView(v.users, v.log + fs)
    decreases |fs|
  {
    if fs != [] {
      AppendHandlerLogsEveryFrame(Deliver(AppendToLog, v, fs[0]), fs[1..]);
      assert v.log + [fs[0]] + fs[1..] == v.log + fs;
    }
  }

  /** Under the presence handler no run of frames grows the log; the roster keeps
      its length, order, ids and names, and no contact goes offline. */
  lemma {:induction false} PresenceHandlerKeepsLog(v: ChatView, fs: seq<Frame>)
    ensures DeliverAll(MarkPresence, v, fs).log == v.log
    ensures |DeliverAll(MarkPresence, v, fs).users| == |v.users|
    ensures forall i :: 0 <= i < |v.users| ==>
      DeliverAll(MarkPresence, v, fs).users[i].id == v.users[i].id &&
      DeliverAll(MarkPresence, v, fs).users[i].name == v.users[i].name &&
      (v.users[i].online ==> DeliverAll(MarkPresence, v, fs).users[i].online)
    decreases |fs|
  {
    if fs != [] {
      PresenceHandlerKeepsLog(Deliver(MarkPresence, v, fs[0]), fs[1..]);
    }
  }

  /** The `Authorization` header of the roster fetch, `Bearer ${token}` built
      without a check: with a non-empty token it is the header the shared
      pipeline would send, but with no token it is the text `Bearer null`,
      where the pipeline sends no header at all. */
  function RosterAuthorization(storage: map<string, string>): (auth: string)
    ensures Truthy(GetItem(storage, "token")) ==>
      auth == Request.WithBearer(map[], storage)["Authorization"]
    ensures "token" !in storage ==>
      auth == "Bearer null" && "Authorization" !in Request.WithBearer(map[], storage)
  {
    "Bearer " + (if "token" in storage then storage["token"] else "null")
  }

  class ChatPanel {
    var chatUsers: seq<ChatUser>
    var loading: bool
    var messages: seq<Frame>
    var selectedUser: Option<int>
    var inputMsg: string
    /** The `ws` state cell holds the socket. */
    var ws: bool
    var phase: Phase
    var handler: Handler
    /** Every frame passed to `ws.send`, in order. */
    var sent: seq<Outbound>

    /** The socket exists exactly when a handler is installed; `ws` is set only
        by `onopen`; the presence handler is installed only once `ws` is set. */
    ghost predicate Valid()
      reads this
    {
      && (phase == Unopened <==> handler == NoHandler)
      && (ws ==> phase == Open || phase == Closed)
      && (handler == MarkPresence ==> ws)
    }

    function View(): ChatView
      reads this
    {
      ChatView(chatUsers, messages)
    }

    /** `sendMessage`'s guard: `ws` is set and open, `selectedUser` is truthy
        (neither `null` nor `0`), and the input is not all whitespace. */
    predicate CanSend(): (ok: bool)
      reads this
      ensures ok <==> ws && phase == Open && selectedUser != None && selectedUser != Some(0) && !Blank(inputMsg)
    {
      ws && phase == Open && selectedUser.Some? && selectedUser.value != 0 && Trim(inputMsg) != ""
    }

    /** The state cells' initial values, before any effect has run. */
    constructor ()
      ensures Valid()
      ensures chatUsers == [] && loading && messages == [] && selectedUser == None && inputMsg == ""
      ensures !ws && phase == Unopened && handler == NoHandler && sent == []
    {
      chatUsers, loading, messages := [], true, [];
      selectedUser, inputMsg := None, "";
      ws, phase, handler, sent := false, Unopened, NoHandler, [];
    }

    /** The mount effects: the roster fetch starts (its `Authorization` header is
        returned), the presence effect finds `ws` unset and does nothing, and the
        connection effect creates the socket and installs the append handler. */
    method Mount(b: Browser) returns (authorization: string)
      requires Valid() && phase == Unopened
      modifies this`phase, this`handler
      ensures Valid()
      ensures authorization == RosterAuthorization(b.storage)
      ensures phase == Connecting && handler == AppendToLog
    {
      authorization := "Bearer " + (if "token" in b.storage then b.storage["token"] else "null");
      phase := Connecting;
      handler := AppendToLog;
    }

    /** `loadData` completing: on success the roster becomes `response.data.data`
        (the whole list replaces the old one, raw axios does no envelope check);
        on failure the roster is kept and one toast is raised; `loading` ends
        false either way. */
    method OnRoster(b: Browser, reply: Request.Reply<seq<ChatUser>>)
      requires Valid()
      modifies this`chatUsers, this`loading, b`toasts
      ensures Valid()
      ensures chatUsers == if reply.Delivered? then reply.body.data else old(chatUsers)
      ensures b.toasts == old(b.toasts) + (if reply.Delivered? then [] else [Toast(Error, "员工数据加载失败")])
      ensures !loading
    {
      match reply {
        case Delivered(body) =>
          chatUsers := body.data;
        case Failed(_) =>
          b.Notify(Error, "员工数据加载失败");
      }
      loading := false;
    }

    /** `socket.onopen`: the socket is stored in `ws`. The append handler stays
        installed until the presence effect runs. */
    method OnOpen()
      requires Valid() && phase == Connecting
      modifies this`ws, this`phase
      ensures Valid()
      ensures ws && phase == Open && handler == old(handler)
    {
      phase := Open;
      ws := true;
    }

    /** The presence effect, run after `ws` changes: once `ws` is set it
        overwrites `onmessage` with the presence handler. */
    method WsEffect()
      requires Valid()
      modifies this`handler
      ensures Valid()
      ensures handler == if ws then MarkPresence else old(handler)
    {
      if ws {
        handler := MarkPresence;
      }
    }

    /** The connection ends (server close or transport error). No handler
        observes it: no reconnect follows and `ws` keeps the closed socket. */
    method TransportClosed()
      requires Valid() && (phase == Connecting || phase == Open)
      modifies this`phase
      ensures Valid()
      ensures phase == Closed
    {
      phase := Closed;
    }

    /** One inbound frame on the open socket, handled by whichever function
        `onmessage` holds. */
    method OnFrame(f: Frame)
      requires Valid() && phase == Open
      modifies this`chatUsers, this`messages
      ensures Valid()
      ensures View() == Deliver(handler, old(View()), f)
      ensures handler == MarkPresence ==> messages == old(messages)
      ensures handler == AppendToLog ==> messages == old(messages) + [f] && chatUsers == old(chatUsers)
    {
      match handler {
        case NoHandler =>
        case AppendToLog =>
          messages := messages + [f];
        case MarkPresence =>
          chatUsers := MarkOnline(chatUsers, f.senderId);
      }
    }

    /** Clicking a contact. The log is not cleared or filtered. */
    method Select(id: int)
      requires Valid()
      modifies this`selectedUser
      ensures Valid()
      ensures selectedUser == Some(id)
    {
      selectedUser := Some(id);
    }

    /** The input box's `onChange`. */
    method SetInput(text: string)
      requires Valid()
      modifies this`inputMsg
      ensures Valid()
      ensures inputMsg == text
    {
      inputMsg := text;
    }

    /** `sendMessage`: transmits exactly when the guard holds, a frame addressed
        to the selected contact carrying the untrimmed input and the clock's
        `now`, and then clears the input; the log is never touched. When the
        guard fails nothing is sent and the input stays as it was. */
    method SendMessage(now: int) returns (transmitted: bool)
      requires Valid()
      modifies this`sent, this`inputMsg
      ensures Valid()
      ensures transmitted == old(CanSend())
      ensures transmitted ==>
        sent == old(sent) + [Outbound(old(selectedUser).value, old(inputMsg), now)] && inputMsg == ""
      ensures !transmitted ==> sent == old(sent) && inputMsg == old(inputMsg)
    {
      transmitted := ws && phase == Open && selectedUser.Some? && selectedUser.value != 0 && Trim(inputMsg) != "";
      if transmitted {
        sent := sent + [Outbound(selectedUser.value, inputMsg, now)];
        inputMsg := "";
      }
    }
  }

  /** Once the socket has opened and the presence effect has run, no later
      frame reaches the log: a chat message sent after the connection is up is
      shown only as a presence change. */
  method AfterOpenFramesSkipLog(p: ChatPanel, fs: seq<Frame>)
    requires p.Valid() && p.phase == Connecting
    modifies p
    ensures p.Valid()
    ensures p.messages == old(p.messages)
    ensures |p.chatUsers| == |old(p.chatUsers)|
  {
    p.OnOpen();
    p.WsEffect();
    var i := 0;
    while i < |fs|
      invariant 0 <= i <= |fs|
      invariant p.Valid() && p.phase == Open && p.handler == MarkPresence
      invariant p.View() == DeliverAll(MarkPresence, old(p.View()), fs[..i])
    {
      p.OnFrame(fs[i]);
      DeliverAllSnoc(MarkPresence, old(p.View()), fs[..i], fs[i]);
      assert fs[..i + 1] == fs[..i] + [fs[i]];
      i := i + 1;
    }
    assert fs[..i] == fs;
    PresenceHandlerKeepsLog(old(p.View()), fs);
  }

  /** Delivering one more frame extends a run by one step. */
  lemma {:induction false} DeliverAllSnoc(h: Handler, v: ChatView, fs: seq<Frame>, f: Frame)
    ensures DeliverAll(h, v, fs + [f]) == Deliver(h, DeliverAll(h, v, fs), f)
    decreases |fs|
  {
    if fs != [] {
      assert (fs + [f])[1..] == fs[1..] + [f];
      DeliverAllSnoc(h, Deliver(h, v, fs[0]), fs[1..], f);
    }
  }
}
