// static/js/services/websocket-service.js: the browser side of the notification socket. The
// socket itself, timers and the event bus are outside the model: what socket.send transmits
// is the wire field, scheduled reconnects are counted, and the events handed to eventBus.emit
// are the emitted field. JavaScript's || on the received JSON is written out: a string is
// falsy when empty, a number when 0 or missing, a flag when false or missing.
module WebSocketService {
  import opened Wrappers

  /** A JavaScript value used as a user id: null, undefined or a string. */
  datatype JsId = JsNull | JsUndefined | JsString(s: string)

  predicate TruthyId(v: JsId) { v.JsString? && v.s != "" }

  /** A number field of received JSON: missing (undefined) or present. */
  predicate TruthyNum(v: Option<int>) { v.Some? && v.value != 0 }

  /** a || b || d on numbers. */
  function OrNum(a: Option<int>, b: Option<int>, d: int): (r: int)
    ensures TruthyNum(a) ==> r == a.value
    ensures !TruthyNum(a) && TruthyNum(b) ==> r == b.value
    ensures !TruthyNum(a) && !TruthyNum(b) ==> r == d
  {
    if TruthyNum(a) then a.value else if TruthyNum(b) then b.value else d
  }

  /** a || b || d on strings, "" standing for a missing field. */
  function OrStr(a: string, b: string, d: string): (r: string)
    ensures a != "" ==> r == a
    ensures a == "" && b != "" ==> r == b
    ensures a == "" && b == "" ==> r == d
  {
    if a != "" then a else if b != "" then b else d
  }

  /** A message handed to send: a typing status, or one the chat view builds. */
  datatype OutMessage =
    | TypingMessage(kind: string, sender: string, recipient: string)
    | AppMessage(json: string)

  /** The notification object of a new_notification frame, under both spellings the client accepts. */
  datatype IncomingNotification = IncomingNotification(
    id: Option<int>, ID: Option<int>, kind: string,
    postId: Option<int>, postID: Option<int>, commentId: Option<int>, commentID: Option<int>,
    messageId: Option<int>, messageID: Option<int>,
    actorName: string, actor_name: string, actorID: string, actor_id: string,
    actorProfilePic: string, actor_profile_pic: string, createdAt: string, created_at: string)

  /** A new_notification frame. */
  datatype NotificationFrame = NotificationFrame(
    receiverID: JsId, receiver_id: JsId, notification: Option<IncomingNotification>,
    unreadCount: Option<int>, unread_count: Option<int>)

  /** An entry of a users_list frame. */
  datatype ListedUser = ListedUser(ID: string, id: string, isOnline: Option<bool>, is_online: Option<bool>)

  /** The object showNotificationPopup emits, every field defaulted. */
  datatype Popup = Popup(id: int, kind: string, actorName: string, actorID: string, actorProfilePic: string,
                         postID: int, createdAt: string)

  /** What the service hands to eventBus.emit. */
  datatype BusEvent =
    | WebsocketConnected
    | WebsocketDisconnected
    | WebsocketError
    | UserTypingStatus(userId: string, recipientId: string, isTyping: bool)
    | UserStatusChange(userId: string, isOnline: bool)
    | UserSignup(userId: string)
    | RefreshUsersList
    | UsersListUpdate(users: Option<seq<ListedUser>>)
    | ShowNotificationPopup(popup: Popup)
    | NewNotification(notification: IncomingNotification, unreadCount: int)
    | UpdateNotificationCount(unreadCount: int)

  /** The handler handleMessage picks for a frame's type. */
  datatype FrameHandler = OnNotification | OnUserStatus | OnNewUser | OnRefreshUsers | OnUsersList | OnTyping | Unknown

  function HandlerFor(kind: string): (h: FrameHandler)
    ensures h == OnNotification <==> kind == "new_notification"
    ensures h == OnUserStatus <==> kind == "user_status"
    ensures h == OnNewUser <==> kind == "new_user"
    ensures h == OnRefreshUsers <==> kind in {"message", "refresh_users"}
    ensures h == OnUsersList <==> kind == "users_list"
    ensures h == OnTyping <==> kind in {"typing", "stop_typing"}
    ensures h == Unknown <==>
              kind !in {"new_notification", "user_status", "new_user", "message", "refresh_users", "users_list", "typing", "stop_typing"}
  {
    if kind == "new_notification" then OnNotification
    else if kind == "user_status" then OnUserStatus
    else if kind == "new_user" then OnNewUser
    else if kind == "message" || kind == "refresh_users" then OnRefreshUsers
    else if kind == "users_list" then OnUsersList
    else if kind == "typing" || kind == "stop_typing" then OnTyping
    else Unknown
  }

  const MaxReconnectAttempts: nat := 5

  /** The attempt counter after one reconnect: one more until the limit, then unchanged. */
  function NextAttempts(a: nat): (r: nat)
    ensures a < MaxReconnectAttempts ==> r == a + 1
    ensures a >= MaxReconnectAttempts ==> r == a
    ensures a <= MaxReconnectAttempts ==> r <= MaxReconnectAttempts
  {
    if a >= MaxReconnectAttempts then a else a + 1
  }

  function AttemptsAfter(a: nat, n: nat): nat
  {
    if n == 0 then a else NextAttempts(AttemptsAfter(a, n - 1))
  }

  /** From a fresh open, n closes in a row leave min(n, 5) attempts. */
  lemma {:induction false} AttemptsSaturate(n: nat)
    ensures AttemptsAfter(0, n) == if n < MaxReconnectAttempts then n else MaxReconnectAttempts
  {
    if n > 0 {
      AttemptsSaturate(n - 1);
    }
  }

  /** The messages a sequence of socket.send calls transmits: those that do not throw. */
  function Transmitted(msgs: seq<OutMessage>, throwsOn: OutMessage -> bool): (r: seq<OutMessage>)
    ensures |r| <= |msgs|
    ensures (forall i :: 0 <= i < |msgs| ==> !throwsOn(msgs[i])) ==> r == msgs
  {
    if msgs == [] then []
    else
      var init := Transmitted(msgs[..|msgs| - 1], throwsOn);
      var last := msgs[|msgs| - 1];
      assert msgs == msgs[..|msgs| - 1] + [last];
      if throwsOn(last) then init else init + [last]
  }

  /** The type notification handling gives a notification that has none. */
  function InferredKind(n: IncomingNotification): (kind: string)
    ensures kind in {"comment", "like", "message"}
    ensures kind == "comment" <==> (TruthyNum(n.postId) || TruthyNum(n.postID)) && (TruthyNum(n.commentId) || TruthyNum(n.commentID))
    ensures kind == "like" <==> (TruthyNum(n.postId) || TruthyNum(n.postID)) && !(TruthyNum(n.commentId) || TruthyNum(n.commentID))
  {
    if TruthyNum(n.postId) || TruthyNum(n.postID) then
      if TruthyNum(n.commentId) || TruthyNum(n.commentID) then "comment" else "like"
    else if TruthyNum(n.messageId) || TruthyNum(n.messageID) then "message"
    else "message"
  }

  /** The notification with its type filled in when it had none. */
  function WithKind(n: IncomingNotification): (r: IncomingNotification)
    ensures n.kind != "" ==> r == n
    ensures n.kind == "" ==> r == n.(kind := InferredKind(n))
    ensures r.kind != ""
  {
    if n.kind != "" then n else n.(kind := InferredKind(n))
  }

  /** showNotificationPopup's validated object; nowMs and nowIso stand for Date.now() and the ISO time. */
  function ValidatedPopup(n: IncomingNotification, nowMs: int, nowIso: string): (p: Popup)
    ensures p.actorName != "" && p.kind != ""
    ensures n.actorName == "" && n.actor_name == "" ==> p.actorName == "Someone"
    ensures TruthyNum(n.postID) ==> p.postID == n.postID.value
    ensures !TruthyNum(n.postID) && TruthyNum(n.postId) ==> p.postID == n.postId.value
    ensures n.kind == "" ==> p.kind == "message"
  {
    Popup(OrNum(n.id, n.ID, nowMs), OrStr(n.kind, "", "message"), OrStr(n.actorName, n.actor_name, "Someone"),
          OrStr(n.actorID, n.actor_id, ""), OrStr(n.actorProfilePic, n.actor_profile_pic, ""),
          OrNum(n.postID, n.postId, 0), OrStr(n.createdAt, n.created_at, nowIso))
  }

  /** The statuses a users_list frame leaves: ID || id, when truthy, gets isOnline || is_online || false. */
  function ListedStatuses(statuses: map<string, bool>, users: seq<ListedUser>): (r: map<string, bool>)
    ensures forall u :: u in statuses ==> u in r
    ensures forall u :: u in r && u !in statuses ==> exists i :: 0 <= i < |users| && OrStr(users[i].ID, users[i].id, "") == u
  {
    if users == [] then statuses
    else
      var init := ListedStatuses(statuses, users[..|users| - 1]);
      var last := users[|users| - 1];
      var userId := OrStr(last.ID, last.id, "");
      if userId == "" then init
      else
        var online := last.isOnline == Some(true) || last.is_online == Some(true);
        var r := init[userId := online];
        assert forall u :: u in r && u !in statuses && u != userId ==> u in init;
        assert forall i :: 0 <= i < |users| - 1 ==> users[..|users| - 1][i] == users[i];
        r
  }

  /** The last entry for an id decides its status. */
  lemma ListedStatusesLast(statuses: map<string, bool>, users: seq<ListedUser>, u: ListedUser)
    requires OrStr(u.ID, u.id, "") != ""
    ensures var r := ListedStatuses(statuses, users + [u]);
            r[OrStr(u.ID, u.id, "")] == (u.isOnline == Some(true) || u.is_online == Some(true))
  {
    assert (users + [u])[..|users|] == users;
  }

  class Service {
    var hasSocket: bool
    var connected: bool
    var reconnectAttempts: nat
    var userStatuses: map<string, bool>
    var currentUserId: JsId
    var pendingMessages: seq<OutMessage>
    /** What socket.send has transmitted. */
    var wire: seq<OutMessage>
    /** What has been handed to eventBus.emit, oldest first. */
    var emitted: seq<BusEvent>
    /** Reconnects scheduled with setTimeout. */
    var scheduled: nat

    predicate Valid()
      reads this
    {
      reconnectAttempts <= MaxReconnectAttempts
    }

    constructor ()
      ensures Valid()
      ensures !hasSocket && !connected && reconnectAttempts == 0 && userStatuses == map[]
      ensures currentUserId == JsNull && pendingMessages == [] && wire == [] && emitted == [] && scheduled == 0
    {
      hasSocket, connected, reconnectAttempts, userStatuses := false, false, 0, map[];
      currentUserId, pendingMessages, wire, emitted, scheduled := JsNull, [], [], [], 0;
    }

    /**
     * initialize: nothing when already connected; otherwise the current user is read, and
     * without one the promise is rejected; with one a new socket is opened.
     */
    method Initialize(authUser: JsId) returns (started: bool)
      requires Valid()
      modifies this
      ensures Valid()
      ensures old(hasSocket && connected) ==> !started && currentUserId == old(currentUserId) && hasSocket
      ensures !old(hasSocket && connected) ==> currentUserId == authUser && (started <==> TruthyId(authUser))
      ensures started ==> hasSocket
      ensures !started ==> hasSocket == old(hasSocket)
      ensures connected == old(connected) && reconnectAttempts == old(reconnectAttempts)
      ensures pendingMessages == old(pendingMessages) && wire == old(wire) && emitted == old(emitted)
      ensures userStatuses == old(userStatuses) && scheduled == old(scheduled)
    {
      if hasSocket && connected {
        return false;
      }
      currentUserId := authUser;
      if !TruthyId(currentUserId) {
        return false;
      }
      hasSocket := true;
      started := true;
    }

    /** send: queue the message while disconnected, otherwise transmit it unless socket.send throws. */
    method Send(message: OutMessage, throws: bool) returns (sent: bool)
      requires Valid()
      modifies this
      ensures Valid()
      ensures !(old(hasSocket) && old(connected)) ==>
                !sent && pendingMessages == old(pendingMessages) + [message] && wire == old(wire)
      ensures old(hasSocket) && old(connected) ==>
                pendingMessages == old(pendingMessages) && (sent <==> !throws)
                && wire == old(wire) + (if throws then [] else [message])
      ensures hasSocket == old(hasSocket) && connected == old(connected) && reconnectAttempts == old(reconnectAttempts)
      ensures userStatuses == old(userStatuses) && currentUserId == old(currentUserId)
      ensures emitted == old(emitted) && scheduled == old(scheduled)
    {
      if !hasSocket || !connected {
        pendingMessages := pendingMessages + [message];
        return false;
      }
      if throws {
        return false;
      }
      wire := wire + [message];
      sent := true;
    }

    /**
     * The open handler: connected, the attempt counter reset, every pending message sent in
     * order (a throwing send loses its message) and the queue emptied.
     */
    method OnOpen(throwsOn: OutMessage -> bool)
      requires hasSocket
      modifies this
      ensures Valid()
      ensures connected && reconnectAttempts == 0 && pendingMessages == []
      ensures wire == old(wire) + Transmitted(old(pendingMessages), throwsOn)
      ensures emitted == old(emitted) + [WebsocketConnected]
      ensures hasSocket && userStatuses == old(userStatuses) && currentUserId == old(currentUserId)
      ensures scheduled == old(scheduled)
    {
      connected := true;
      reconnectAttempts := 0;
      var queued := pendingMessages;
      if |queued| > 0 {
        var i := 0;
        while i < |queued|
          invariant 0 <= i <= |queued|
          invariant hasSocket && connected && reconnectAttempts == 0 && pendingMessages == queued
          invariant wire == old(wire) + Transmitted(queued[..i], throwsOn)
          invariant emitted == old(emitted) && userStatuses == old(userStatuses)
          invariant currentUserId == old(currentUserId) && scheduled == old(scheduled)
        {
          assert queued[..i + 1][..i] == queued[..i];
          var _ := Send(queued[i], throwsOn(queued[i]));
          i := i + 1;
        }
        assert queued[..i] == queued;
        pendingMessages := [];
      }
      emitted := emitted + [WebsocketConnected];
    }

    /** reconnect: at the limit, nothing; otherwise one more attempt is counted and scheduled. */
    method Reconnect()
      requires Valid()
      modifies this
      ensures Valid()
      ensures reconnectAttempts == NextAttempts(old(reconnectAttempts))
      ensures scheduled == if old(reconnectAttempts) >= MaxReconnectAttempts then old(scheduled) else old(scheduled) + 1
      ensures hasSocket == old(hasSocket) && connected == old(connected) && userStatuses == old(userStatuses)
      ensures currentUserId == old(currentUserId) && pendingMessages == old(pendingMessages)
      ensures wire == old(wire) && emitted == old(emitted)
    {
      if reconnectAttempts >= MaxReconnectAttempts {
        return;
      }
      reconnectAttempts := reconnectAttempts + 1;
      scheduled := scheduled + 1;
    }

    /** The close handler: disconnected, websocket_disconnected emitted, then reconnect. */
    method OnClose()
      requires Valid()
      modifies this
      ensures Valid()
      ensures !connected && emitted == old(emitted) + [WebsocketDisconnected]
      ensures reconnectAttempts == NextAttempts(old(reconnectAttempts))
      ensures scheduled == if old(reconnectAttempts) >= MaxReconnectAttempts then old(scheduled) else old(scheduled) + 1
      ensures hasSocket == old(hasSocket) && userStatuses == old(userStatuses) && pendingMessages == old(pendingMessages)
      ensures wire == old(wire) && currentUserId == old(currentUserId)
    {
      connected := false;
      emitted := emitted + [WebsocketDisconnected];
      Reconnect();
    }

    /** The error handler: disconnected and websocket_error emitted; no reconnect. */
    method OnError()
      requires Valid()
      modifies this
      ensures Valid()
      ensures !connected && emitted == old(emitted) + [WebsocketError]
      ensures hasSocket == old(hasSocket) && reconnectAttempts == old(reconnectAttempts)
      ensures userStatuses == old(userStatuses) && pendingMessages == old(pendingMessages) && wire == old(wire)
      ensures currentUserId == old(currentUserId) && scheduled == old(scheduled)
    {
      connected := false;
      emitted := emitted + [WebsocketError];
    }

    /**
     * close: drop the socket, if there is one. The close event the dropped socket fires later
     * is OnClose.
     */
    method Close()
      requires Valid()
      modifies this
      ensures Valid()
      ensures !old(hasSocket) ==> connected == old(connected)
      ensures old(hasSocket) ==> !connected
      ensures !hasSocket
      ensures reconnectAttempts == old(reconnectAttempts) && pendingMessages == old(pendingMessages) && wire == old(wire)
      ensures userStatuses == old(userStatuses) && currentUserId == old(currentUserId)
      ensures emitted == old(emitted) && scheduled == old(scheduled)
    {
      if hasSocket {
        hasSocket := false;
        connected := false;
      }
    }

    /** getUserStatus: the recorded status, false for a user never reported. */
    function GetUserStatus(userId: string): (online: bool)
      reads this
      ensures userId !in userStatuses ==> !online
      ensures userId in userStatuses ==> online == userStatuses[userId]
    {
      userId in userStatuses && userStatuses[userId]
    }

    /** handleUserStatus: record the status and emit user_status_change. */
    method HandleUserStatus(userId: string, isOnline: bool)
      requires Valid()
      modifies this
      ensures Valid()
      ensures userStatuses == old(userStatuses)[userId := isOnline]
      ensures emitted == old(emitted) + [UserStatusChange(userId, isOnline)]
      ensures GetUserStatus(userId) == isOnline
      ensures pendingMessages == old(pendingMessages) && wire == old(wire) && connected == old(connected)
      ensures hasSocket == old(hasSocket) && reconnectAttempts == old(reconnectAttempts)
      ensures currentUserId == old(currentUserId) && scheduled == old(scheduled)
    {
      userStatuses := userStatuses[userId := isOnline];
      emitted := emitted + [UserStatusChange(userId, isOnline)];
    }

    /**
     * handleNewUser: a user with a truthy id is recorded as online, whatever is_online says
     * (`is_online || true` is always true), and user_signup is emitted.
     */
    method HandleNewUser(user: Option<(string, Option<bool>)>)
      requires Valid()
      modifies this
      ensures Valid()
      ensures user.Some? && user.value.0 != "" ==>
                userStatuses == old(userStatuses)[user.value.0 := true]
                && emitted == old(emitted) + [UserSignup(user.value.0)]
                && GetUserStatus(user.value.0)
      ensures !(user.Some? && user.value.0 != "") ==> userStatuses == old(userStatuses) && emitted == old(emitted)
      ensures pendingMessages == old(pendingMessages) && wire == old(wire) && connected == old(connected)
      ensures hasSocket == old(hasSocket) && reconnectAttempts == old(reconnectAttempts)
      ensures currentUserId == old(currentUserId) && scheduled == old(scheduled)
    {
      if user.Some? && user.value.0 != "" {
        var reported := user.value.1;
        var online := if reported == Some(true) then true else true;
        userStatuses := userStatuses[user.value.0 := online];
        emitted := emitted + [UserSignup(user.value.0)];
      }
    }

    /** handleRefreshUsers: refresh_users_list is emitted. */
    method HandleRefreshUsers()
      requires Valid()
      modifies this
      ensures Valid()
      ensures emitted == old(emitted) + [RefreshUsersList]
      ensures userStatuses == old(userStatuses) && pendingMessages == old(pendingMessages) && wire == old(wire)
      ensures connected == old(connected)
      ensures hasSocket == old(hasSocket) && reconnectAttempts == old(reconnectAttempts)
      ensures currentUserId == old(currentUserId) && scheduled == old(scheduled)
    {
      emitted := emitted + [RefreshUsersList];
    }

    /** handleTypingStatus: the sender's typing state emitted, typing exactly for a "typing" frame. */
    method HandleTypingStatus(kind: string, sender: string, recipient: string)
      requires Valid()
      modifies this
      ensures Valid()
      ensures emitted == old(emitted) + [UserTypingStatus(sender, recipient, kind == "typing")]
      ensures userStatuses == old(userStatuses) && pendingMessages == old(pendingMessages) && wire == old(wire)
      ensures connected == old(connected)
      ensures hasSocket == old(hasSocket) && reconnectAttempts == old(reconnectAttempts)
      ensures currentUserId == old(currentUserId) && scheduled == old(scheduled)
    {
      emitted := emitted + [UserTypingStatus(sender, recipient, kind == "typing")];
    }

    /** handleUsersList: each listed user's status recorded in list order, then users_list_update. */
    method HandleUsersList(users: Option<seq<ListedUser>>)
      requires Valid()
      modifies this
      ensures Valid()
      ensures users.Some? ==> userStatuses == ListedStatuses(old(userStatuses), users.value)
      ensures users.None? ==> userStatuses == old(userStatuses)
      ensures emitted == old(emitted) + [UsersListUpdate(users)]
      ensures pendingMessages == old(pendingMessages) && wire == old(wire) && connected == old(connected)
      ensures hasSocket == old(hasSocket) && reconnectAttempts == old(reconnectAttempts)
      ensures currentUserId == old(currentUserId) && scheduled == old(scheduled)
    {
      if users.Some? {
        var list := users.value;
        var statuses := userStatuses;
        var i := 0;
        while i < |list|
          invariant 0 <= i <= |list|
          invariant statuses == ListedStatuses(userStatuses, list[..i])
        {
          assert list[..i + 1][..i] == list[..i];
          var userId := OrStr(list[i].ID, list[i].id, "");
          if userId != "" {
            statuses := statuses[userId := list[i].isOnline == Some(true) || list[i].is_online == Some(true)];
          }
          i := i + 1;
        }
        assert list[..i] == list;
        userStatuses := statuses;
      }
      emitted := emitted + [UsersListUpdate(users)];
    }

    /** Whether a notification frame is addressed to this client (strict equality on either spelling). */
    function ForMe(data: NotificationFrame): (mine: bool)
      reads this
      ensures mine <==> data.receiverID == currentUserId || data.receiver_id == currentUserId
    {
      data.receiverID == currentUserId || data.receiver_id == currentUserId
    }

    /**
     * handleNewNotification: a frame for another user, or without a notification, emits
     * nothing; otherwise the notification gets a type if it has none, and the popup,
     * new_notification and update_notification_count are emitted in that order.
     */
    method HandleNewNotification(data: NotificationFrame, nowMs: int, nowIso: string)
      requires Valid()
      modifies this
      ensures Valid()
      ensures !ForMe(data) || data.notification.None? ==> emitted == old(emitted)
      ensures ForMe(data) && data.notification.Some? ==>
                var n := WithKind(data.notification.value);
                var unread := OrNum(data.unreadCount, data.unread_count, 0);
                emitted == old(emitted) + [ShowNotificationPopup(ValidatedPopup(n, nowMs, nowIso)),
                                           NewNotification(n, unread), UpdateNotificationCount(unread)]
      ensures currentUserId == old(currentUserId) && userStatuses == old(userStatuses)
      ensures pendingMessages == old(pendingMessages) && wire == old(wire) && connected == old(connected)
      ensures hasSocket == old(hasSocket) && reconnectAttempts == old(reconnectAttempts) && scheduled == old(scheduled)
    {
      if ForMe(data) {
        var unread := OrNum(data.unreadCount, data.unread_count, 0);
        if data.notification.Some? {
          var n := WithKind(data.notification.value);
          emitted := emitted + [ShowNotificationPopup(ValidatedPopup(n, nowMs, nowIso))];
          emitted := emitted + [NewNotification(n, unread)];
          emitted := emitted + [UpdateNotificationCount(unread)];
        }
      }
    }

    /**
     * sendTypingStatus: false, with nothing sent, queued or emitted, when the current user or
     * the recipient is missing; otherwise a typing or stop_typing message goes through send
     * and the local typing event is emitted.
     */
    method SendTypingStatus(recipientId: string, isTyping: bool, throws: bool) returns (sent: bool)
      requires Valid()
      modifies this
      ensures Valid()
      ensures !TruthyId(old(currentUserId)) || recipientId == "" ==>
                !sent && pendingMessages == old(pendingMessages) && wire == old(wire) && emitted == old(emitted)
      ensures TruthyId(old(currentUserId)) && recipientId != "" ==>
                var m := TypingMessage(if isTyping then "typing" else "stop_typing", old(currentUserId).s, recipientId);
                (m.kind == "typing" <==> isTyping)
                && emitted == old(emitted) + [UserTypingStatus(old(currentUserId).s, recipientId, isTyping)]
                && (old(hasSocket) && old(connected) ==>
                      pendingMessages == old(pendingMessages) && (sent <==> !throws) && wire == old(wire) + (if throws then [] else [m]))
                && (!(old(hasSocket) && old(connected)) ==>
                      !sent && pendingMessages == old(pendingMessages) + [m] && wire == old(wire))
      ensures currentUserId == old(currentUserId) && connected == old(connected) && hasSocket == old(hasSocket)
      ensures userStatuses == old(userStatuses)
      ensures reconnectAttempts == old(reconnectAttempts) && scheduled == old(scheduled)
    {
      if !TruthyId(currentUserId) || recipientId == "" {
        return false;
      }
      var message := TypingMessage(if isTyping then "typing" else "stop_typing", currentUserId.s, recipientId);
      sent := Send(message, throws);
      emitted := emitted + [UserTypingStatus(currentUserId.s, recipientId, isTyping)];
    }
  }
}
