// authentication/websocket.go: the clients registry of notification sockets, the
// snapshot-then-write broadcasts, the users_list broadcast that follows each of them and the
// unicast of a new notification. A connection is a number; what has been written to it is
// its outbox, and a write to a connection in `failed` returns an error and writes nothing.
// Each goroutine body and each locked section is one step of a method.
module RealtimeHub {
  import opened Wrappers
  import opened NotificationHandler

  type ConnId = nat

  /** A row of the users table, as the users_list query reads it. */
  datatype UserRecord = UserRecord(nickname: string, email: string, profilePic: Option<string>, isOnline: bool)

  /** One entry of a users_list event. */
  datatype UserEntry = UserEntry(id: string, userName: string, email: string, isOnline: bool, profilePic: string)

  /** The "notification" object of a new_notification event. */
  datatype NotificationData = NotificationData(id: int, kind: string, actorName: string, actorID: string,
                                               actorProfilePic: string)

  /** A row of the messages table; a message's id is its position plus one. */
  datatype MessageRecord = MessageRecord(senderId: string, receiverId: string, content: string,
                                         sentAt: string, read: bool)

  /** What can be written to a connection. */
  datatype Event =
    | UserStatus(userId: string, isOnline: bool)                                 // "user_status"
    | NewUser(id: string, nickname: string, isOnline: bool)                      // "new_user"
    | RefreshUsers(senderId: string, receiverId: string)                         // "refresh_users"
    | NewNotification(notification: NotificationData, unreadCount: int, receiverId: string) // "new_notification"
    | UsersList(users: seq<UserEntry>)                                           // "users_list"
    | RawFrame(frame: string)                                 // a chat frame forwarded byte for byte
    | ChatMessage(messageId: int, sender: string, recipient: string, content: string, timestamp: string, read: bool)
    | MessageRead(senderID: string, receiverID: string)                          // "message_read"

  /** Statements whose failure the handlers react to. */
  datatype HubFault = StatusUpdateFails | UsersQueryFails | NotificationInsertFails | CountFails

  function PicOrEmpty(pic: Option<string>): string
  {
    if pic.Some? then pic.value else ""
  }

  /**
   * The users_list payload: one entry per id of order (the nickname order of the query) that
   * is in the table; a NULL picture becomes "".
   */
  function UsersListing(users: map<string, UserRecord>, order: seq<string>): (list: seq<UserEntry>)
    ensures |list| <= |order|
    ensures forall k :: 0 <= k < |list| ==>
              list[k].id in users && list[k].id in order
              && list[k].userName == users[list[k].id].nickname
              && list[k].email == users[list[k].id].email
              && list[k].isOnline == users[list[k].id].isOnline
              && list[k].profilePic == PicOrEmpty(users[list[k].id].profilePic)
    ensures (forall k :: 0 <= k < |order| ==> order[k] in users) ==>
              |list| == |order| && forall k :: 0 <= k < |list| ==> list[k].id == order[k]
  {
    if order == [] then []
    else
      var id := order[|order| - 1];
      var rest := UsersListing(users, order[..|order| - 1]);
      if id in users then
        var u := users[id];
        rest + [UserEntry(id, u.nickname, u.email, u.isOnline, PicOrEmpty(u.profilePic))]
      else rest
  }

  /** Byte-wise (SQLite BINARY) order on strings: code-point order equals UTF-8 byte order. */
  predicate LexLe(a: string, b: string)
  {
    a == [] || (b != [] && (a[0] < b[0] || (a[0] == b[0] && LexLe(a[1..], b[1..]))))
  }

  /**
   * order is what SELECT ... FROM users ORDER BY nickname ASC returns: every id of the table
   * once, in non-decreasing nickname order.
   */
  predicate NicknameOrder(users: map<string, UserRecord>, order: seq<string>)
  {
    && (forall id :: id in users ==> id in order)
    && (forall k :: 0 <= k < |order| ==> order[k] in users)
    && (forall i, j :: 0 <= i < j < |order| ==> order[i] != order[j])
    && (forall i, j :: 0 <= i < j < |order| && order[i] in users && order[j] in users ==>
          LexLe(users[order[i]].nickname, users[order[j]].nickname))
  }

  /**
   * Over the table's own nickname order, the users_list holds every user exactly once, in
   * nickname order.
   */
  lemma UsersListingOfTable(users: map<string, UserRecord>, order: seq<string>)
    requires NicknameOrder(users, order)
    ensures var list := UsersListing(users, order);
            && |list| == |users|
            && (forall id :: id in users <==> exists k :: 0 <= k < |list| && list[k].id == id)
            && (forall i, j :: 0 <= i < j < |list| ==> list[i].id != list[j].id)
            && (forall i, j :: 0 <= i < j < |list| ==> LexLe(list[i].userName, list[j].userName))
  {
    var list := UsersListing(users, order);
    OrderCoversTable(users, order);
    forall id | id in users ensures exists k :: 0 <= k < |list| && list[k].id == id {
      var k :| 0 <= k < |order| && order[k] == id;
      assert list[k].id == id;
    }
    forall i, j | 0 <= i < j < |list| ensures LexLe(list[i].userName, list[j].userName) {
      assert list[i].id == order[i] && list[j].id == order[j];
    }
  }

  /** The nickname order lists as many ids as the table holds. */
  lemma OrderCoversTable(users: map<string, UserRecord>, order: seq<string>)
    requires NicknameOrder(users, order)
    ensures |order| == |users|
  {
    DistinctCard(order);
    assert (set k | 0 <= k < |order| :: order[k]) == users.Keys;
  }

  /** A sequence without repeats has as many distinct elements as positions. */
  lemma {:induction false} DistinctCard(order: seq<string>)
    requires forall i, j :: 0 <= i < j < |order| ==> order[i] != order[j]
    ensures |set k | 0 <= k < |order| :: order[k]| == |order|
  {
    if order != [] {
      var init := order[..|order| - 1];
      DistinctCard(init);
      var s := set k | 0 <= k < |order| :: order[k];
      var t := set k | 0 <= k < |init| :: init[k];
      assert s == t + {order[|order| - 1]};
      assert order[|order| - 1] !in t;
    }
  }

  /** Recording a status keeps the nickname order of the table. */
  lemma SetOnlineKeepsOrder(users: map<string, UserRecord>, order: seq<string>, userID: string, isOnline: bool,
                            faults: set<HubFault>)
    requires NicknameOrder(users, order)
    ensures NicknameOrder(SetOnline(users, userID, isOnline, faults), order)
  {
    var r := SetOnline(users, userID, isOnline, faults);
    assert forall id :: id in r ==> r[id].nickname == users[id].nickname;
  }

  /** With no users the list is empty, never absent. */
  lemma {:induction false} UsersListingEmpty(order: seq<string>)
    ensures UsersListing(map[], order) == []
  {
    if order != [] {
      UsersListingEmpty(order[..|order| - 1]);
    }
  }

  /** The users_list broadcast that follows a broadcast: none when the users query fails. */
  function ListEvents(faults: set<HubFault>, users: map<string, UserRecord>, order: seq<string>): seq<Event>
  {
    if UsersQueryFails in faults then [] else [UsersList(UsersListing(users, order))]
  }

  /** The table after UPDATE users SET is_online = ? WHERE id = ?. */
  function SetOnline(users: map<string, UserRecord>, userID: string, isOnline: bool, faults: set<HubFault>)
    : (r: map<string, UserRecord>)
    ensures r.Keys == users.Keys
    ensures userID in users && StatusUpdateFails !in faults ==> r[userID] == users[userID].(isOnline := isOnline)
    ensures forall id :: id in users && (id != userID || StatusUpdateFails in faults) ==> r[id] == users[id]
  {
    if userID in users && StatusUpdateFails !in faults then users[userID := users[userID].(isOnline := isOnline)]
    else users
  }

  /** One write of e to each connection of targets that does not fail. */
  function Deliver(o: map<ConnId, seq<Event>>, targets: set<ConnId>, failed: set<ConnId>, e: Event)
    : (r: map<ConnId, seq<Event>>)
    ensures r.Keys == o.Keys
    ensures forall c :: c in r <==> c in o
    ensures forall c :: c in o ==> r[c] == (if c in targets && c !in failed then o[c] + [e] else o[c])
  {
    map c | c in o :: if c in targets && c !in failed then o[c] + [e] else o[c]
  }

  /** The events written in turn, each by a broadcast over the same targets. */
  function DeliverAll(o: map<ConnId, seq<Event>>, targets: set<ConnId>, failed: set<ConnId>, events: seq<Event>)
    : (r: map<ConnId, seq<Event>>)
    ensures r.Keys == o.Keys
    decreases |events|
  {
    if events == [] then o else DeliverAll(Deliver(o, targets, failed, events[0]), targets, failed, events[1..])
  }

  /**
   * Every target that does not fail receives all the events once each, in order; every other
   * connection receives nothing.
   */
  lemma {:induction false} DeliverAllSent(o: map<ConnId, seq<Event>>, targets: set<ConnId>, failed: set<ConnId>,
                                          events: seq<Event>, c: ConnId)
    requires c in o
    ensures DeliverAll(o, targets, failed, events)[c] == o[c] + (if c in targets && c !in failed then events else [])
    decreases |events|
  {
    if events != [] {
      var once := Deliver(o, targets, failed, events[0]);
      DeliverAllSent(once, targets, failed, events[1..], c);
      assert [events[0]] + events[1..] == events;
    }
  }

  /** Every outbox of o is still there in r, possibly with more events after it. */
  predicate Grows(o: map<ConnId, seq<Event>>, r: map<ConnId, seq<Event>>)
  {
    o.Keys <= r.Keys && forall c :: c in o ==> o[c] <= r[c]
  }

  lemma DeliverAllGrows(o: map<ConnId, seq<Event>>, targets: set<ConnId>, failed: set<ConnId>, events: seq<Event>)
    ensures Grows(o, DeliverAll(o, targets, failed, events))
  {
    forall c | c in o
      ensures o[c] <= DeliverAll(o, targets, failed, events)[c]
    {
      DeliverAllSent(o, targets, failed, events, c);
    }
  }

  /** One write of e to connection c. */
  function Send(o: map<ConnId, seq<Event>>, c: ConnId, e: Event): (r: map<ConnId, seq<Event>>)
    requires c in o
    ensures r.Keys == o.Keys && r[c] == o[c] + [e]
    ensures forall d :: d in o && d != c ==> r[d] == o[d]
  {
    o[c := o[c] + [e]]
  }

  /** The events BroadcastNewMessage writes to every connection: refresh_users, then the users list. */
  function NewMessageEvents(senderID: string, receiverID: string, faults: set<HubFault>,
                            users: map<string, UserRecord>, order: seq<string>): seq<Event>
  {
    [RefreshUsers(senderID, receiverID)] + ListEvents(faults, users, order)
  }

  /** The new_notification that a "message" notification from sender sends to receiver. */
  function MessageNotice(users: map<string, UserRecord>, notifications: map<NotificationId, NotificationRecord>,
                         noteId: int, senderID: string, receiverID: string): Event
    requires senderID in users
  {
    NewNotification(NotificationData(noteId, "message", users[senderID].nickname, senderID,
                                     PicOrEmpty(users[senderID].profilePic)),
                    |UnreadIds(notifications, receiverID)|, receiverID)
  }

  /**
   * The outboxes after BroadcastNewMessage: the broadcast to every registered connection, then
   * the notice to the receiver's connection when the sender exists, the count query works and
   * the receiver's connection is registered and working. notifications is the table after the
   * insert and noteId the id the notice carries.
   */
  function NewMessageOutbox(o: map<ConnId, seq<Event>>, clients: map<string, ConnId>, failed: set<ConnId>,
                            users: map<string, UserRecord>, order: seq<string>,
                            notifications: map<NotificationId, NotificationRecord>, noteId: int,
                            senderID: string, receiverID: string, faults: set<HubFault>): map<ConnId, seq<Event>>
    requires forall u :: u in clients ==> clients[u] in o
  {
    var broadcast := DeliverAll(o, clients.Values, failed, NewMessageEvents(senderID, receiverID, faults, users, order));
    if senderID in users && CountFails !in faults && receiverID in clients && clients[receiverID] !in failed then
      Send(broadcast, clients[receiverID], MessageNotice(users, notifications, noteId, senderID, receiverID))
    else broadcast
  }

  /**
   * Per connection: BroadcastNewMessage appends refresh_users and the users list to every
   * working registered connection, and the notice after them to the receiver's.
   */
  lemma NewMessageOutboxSent(o: map<ConnId, seq<Event>>, clients: map<string, ConnId>, failed: set<ConnId>,
                             users: map<string, UserRecord>, order: seq<string>,
                             notifications: map<NotificationId, NotificationRecord>, noteId: int,
                             senderID: string, receiverID: string, faults: set<HubFault>, c: ConnId)
    requires forall u :: u in clients ==> clients[u] in o
    requires c in o
    ensures var r := NewMessageOutbox(o, clients, failed, users, order, notifications, noteId, senderID, receiverID, faults);
            var events := NewMessageEvents(senderID, receiverID, faults, users, order);
            var noticed := senderID in users && CountFails !in faults && receiverID in clients
                           && clients[receiverID] == c && c !in failed;
            r.Keys == o.Keys
            && r[c] == o[c] + (if c in clients.Values && c !in failed then events else [])
                            + (if noticed then [MessageNotice(users, notifications, noteId, senderID, receiverID)] else [])
  {
    DeliverAllSent(o, clients.Values, failed, NewMessageEvents(senderID, receiverID, faults, users, order), c);
  }

  /** The ids of the notifications of a receiver from an actor with a given type. */
  function MatchingIds(table: map<NotificationId, NotificationRecord>, receiverID: string, actorID: string, kind: string): set<NotificationId>
  {
    set id | id in table && table[id].userId == receiverID && table[id].actorId == actorID && table[id].kind == kind
  }

  /** id is a latest matching notification: the row ORDER BY created_at DESC LIMIT 1 returns. */
  predicate IsLatest(table: map<NotificationId, NotificationRecord>, id: int, receiverID: string, actorID: string, kind: string)
  {
    id in MatchingIds(table, receiverID, actorID, kind)
    && forall j :: j in MatchingIds(table, receiverID, actorID, kind) ==> table[j].createdAt <= table[id].createdAt
  }

  lemma MaxCreatedExists(table: map<NotificationId, NotificationRecord>, s: set<NotificationId>, x: NotificationId)
    requires x in s && s <= table.Keys
    ensures exists id :: id in s && forall j :: j in s ==> table[j].createdAt <= table[id].createdAt
    decreases |s|
  {
    var rest := s - {x};
    if rest == {} {
      assert forall j :: j in s ==> j == x;
    } else {
      var x' :| x' in rest;
      MaxCreatedExists(table, rest, x');
      var y :| y in rest && forall j :: j in rest ==> table[j].createdAt <= table[y].createdAt;
      if table[x].createdAt <= table[y].createdAt {
        assert forall j :: j in s ==> table[j].createdAt <= table[y].createdAt;
      } else {
        assert forall j :: j in s ==> table[j].createdAt <= table[x].createdAt;
      }
    }
  }

  /** A receiver, actor and type with some notification have a latest one. */
  lemma LatestExists(table: map<NotificationId, NotificationRecord>, receiverID: string, actorID: string, kind: string, x: NotificationId)
    requires x in MatchingIds(table, receiverID, actorID, kind)
    ensures exists id :: IsLatest(table, id, receiverID, actorID, kind)
  {
    var s := MatchingIds(table, receiverID, actorID, kind);
    MaxCreatedExists(table, s, x);
    var id :| id in s && forall j :: j in s ==> table[j].createdAt <= table[id].createdAt;
    assert IsLatest(table, id, receiverID, actorID, kind);
  }

  /** No connection is registered under two keys. */
  predicate Injective(m: map<string, ConnId>)
  {
    forall u, v :: u in m && v in m && u != v ==> m[u] != m[v]
  }

  /** box is outbox after one write of e to each target that does not fail. */
  predicate DeliveredTo(box: map<ConnId, seq<Event>>, o: map<ConnId, seq<Event>>, targets: set<ConnId>,
                        failed: set<ConnId>, e: Event)
  {
    box.Keys == o.Keys
    && forall c :: c in o ==> box[c] == (if c in targets && c !in failed then o[c] + [e] else o[c])
  }

  lemma DeliveredToIsDeliver(box: map<ConnId, seq<Event>>, o: map<ConnId, seq<Event>>, targets: set<ConnId>,
                             failed: set<ConnId>, e: Event)
    requires DeliveredTo(box, o, targets, failed, e)
    ensures box == Deliver(o, targets, failed, e)
  {
  }

  /**
   * The write loop over a copy of the registry: each registered connection is written once,
   * a failed write is skipped and the loop goes on.
   */
  method WriteEach(snapshot: map<string, ConnId>, outbox: map<ConnId, seq<Event>>, failed: set<ConnId>, e: Event)
    returns (box: map<ConnId, seq<Event>>)
    requires forall u :: u in snapshot ==> snapshot[u] in outbox
    ensures box == Deliver(outbox, snapshot.Values, failed, e)
  {
    box := outbox;
    // No connection is registered under two ids, so one pass per copied entry is one pass
    // per copied connection.
    var remaining := snapshot.Values;
    while remaining != {}
      invariant remaining <= snapshot.Values
      invariant DeliveredTo(box, outbox, snapshot.Values - remaining, failed, e)
      decreases |remaining|
    {
      var c :| c in remaining;
      if c !in failed {
        box := box[c := box[c] + [e]];
      }
      remaining := remaining - {c};
    }
    DeliveredToIsDeliver(box, outbox, snapshot.Values, failed, e);
  }

  /** The registry and outboxes Go keeps in package variables, and the tables the broadcasts read. */
  class Hub {
    var clients: map<string, ConnId>
    var chatClients: map<string, ConnId>
    var outbox: map<ConnId, seq<Event>>
    var failed: set<ConnId>
    var nextConn: ConnId
    var users: map<string, UserRecord>
    /** The ids of users in nickname order, the order of the users_list query. */
    var byNickname: seq<string>
    var notifications: map<NotificationId, NotificationRecord>
    var nextNotificationId: NotificationId
    var messages: seq<MessageRecord>

    /**
     * Every registered connection has an outbox, connection numbers are never reused, and no
     * connection is registered under two user ids (each upgrade makes a new connection).
     */
    predicate Valid()
      reads this
    {
      (forall u :: u in clients ==> clients[u] in outbox)
      && (forall u :: u in chatClients ==> chatClients[u] in outbox)
      && (forall c :: c in outbox ==> c < nextConn)
      && Injective(clients)
      && (forall id :: id in notifications ==> 0 < id < nextNotificationId)
      && nextNotificationId >= 1
      && NicknameOrder(users, byNickname)
    }

    constructor (users: map<string, UserRecord>, byNickname: seq<string>)
      requires NicknameOrder(users, byNickname)
      ensures Valid()
      ensures clients == map[] && chatClients == map[] && outbox == map[] && failed == {}
      ensures this.users == users && this.byNickname == byNickname
      ensures notifications == map[] && messages == []
    {
      clients, chatClients, outbox, failed, nextConn := map[], map[], map[], {}, 0;
      this.users, this.byNickname := users, byNickname;
      notifications, nextNotificationId, messages := map[], 1, [];
    }

    /** ClientConnection.WriteJSON: the write succeeds unless the connection fails. */
    method WriteJson(c: ConnId, e: Event) returns (ok: bool)
      requires c in outbox
      modifies this
      ensures ok <==> c !in failed
      ensures outbox == if ok then Send(old(outbox), c, e) else old(outbox)
      ensures clients == old(clients) && chatClients == old(chatClients) && failed == old(failed)
      ensures nextConn == old(nextConn) && users == old(users) && byNickname == old(byNickname)
      ensures notifications == old(notifications) && nextNotificationId == old(nextNotificationId)
      ensures messages == old(messages)
    {
      if c in failed {
        return false;
      }
      outbox := outbox[c := outbox[c] + [e]];
      return true;
    }

    /**
     * The broadcast loop: copy the registry, then write e to each copied connection, skipping
     * the writes that fail. The registry itself is only read.
     */
    method Broadcast(e: Event)
      requires Valid()
      modifies this
      ensures Valid()
      ensures outbox == Deliver(old(outbox), old(clients).Values, failed, e)
      ensures clients == old(clients) && chatClients == old(chatClients) && failed == old(failed)
      ensures nextConn == old(nextConn) && users == old(users) && byNickname == old(byNickname)
      ensures notifications == old(notifications) && nextNotificationId == old(nextNotificationId)
      ensures messages == old(messages)
    {
      var box := WriteEach(clients, outbox, failed, e);
      assert forall u :: u in clients ==> clients[u] in box;
      assert forall u :: u in chatClients ==> chatClients[u] in box;
      outbox := box;
    }

    /** BroadcastUsersList: the users_list event to every connection, unless the query fails. */
    method BroadcastUsersList(faults: set<HubFault>)
      requires Valid()
      modifies this
      ensures Valid()
      ensures outbox == DeliverAll(old(outbox), clients.Values, failed, ListEvents(faults, users, byNickname))
      ensures clients == old(clients) && chatClients == old(chatClients) && failed == old(failed)
      ensures nextConn == old(nextConn) && users == old(users) && byNickname == old(byNickname)
      ensures notifications == old(notifications) && nextNotificationId == old(nextNotificationId)
      ensures messages == old(messages)
    {
      if UsersQueryFails in faults {
        return;
      }
      ghost var before := outbox;
      Broadcast(UsersList(UsersListing(users, byNickname)));
      assert outbox == DeliverAll(Deliver(before, clients.Values, failed, UsersList(UsersListing(users, byNickname))), clients.Values, failed, []);
    }

    /** A broadcast of e followed by the users_list broadcast, the body of each broadcast goroutine. */
    method BroadcastWithList(e: Event, faults: set<HubFault>)
      requires Valid()
      modifies this
      ensures Valid()
      ensures outbox == DeliverAll(old(outbox), clients.Values, failed, [e] + ListEvents(faults, users, byNickname))
      ensures clients == old(clients) && chatClients == old(chatClients) && failed == old(failed)
      ensures nextConn == old(nextConn) && users == old(users) && byNickname == old(byNickname)
      ensures notifications == old(notifications) && nextNotificationId == old(nextNotificationId)
      ensures messages == old(messages)
    {
      Broadcast(e);
      BroadcastUsersList(faults);
      assert ([e] + ListEvents(faults, users, byNickname))[1..] == ListEvents(faults, users, byNickname);
    }

    /**
     * broadcastUserStatus: the users table records the status first (an error there is only
     * logged), then the status event and the users list go to every connection.
     */
    method BroadcastUserStatus(userID: string, isOnline: bool, faults: set<HubFault>)
      requires Valid()
      modifies this
      ensures Valid()
      ensures users == SetOnline(old(users), userID, isOnline, faults)
      ensures outbox == DeliverAll(old(outbox), clients.Values, failed,
                                   [UserStatus(userID, isOnline)] + ListEvents(faults, users, byNickname))
      ensures clients == old(clients) && chatClients == old(chatClients) && failed == old(failed)
      ensures nextConn == old(nextConn) && byNickname == old(byNickname)
      ensures notifications == old(notifications) && nextNotificationId == old(nextNotificationId)
      ensures messages == old(messages)
    {
      SetOnlineKeepsOrder(users, byNickname, userID, isOnline, faults);
      users := SetOnline(users, userID, isOnline, faults);
      BroadcastWithList(UserStatus(userID, isOnline), faults);
    }

    /** BroadcastNewUser: a new_user event, always marked online, then the users list. */
    method BroadcastNewUser(userID: string, nickname: string, faults: set<HubFault>)
      requires Valid()
      modifies this
      ensures Valid()
      ensures outbox == DeliverAll(old(outbox), clients.Values, failed,
                                   [NewUser(userID, nickname, true)] + ListEvents(faults, users, byNickname))
      ensures clients == old(clients) && chatClients == old(chatClients) && failed == old(failed)
      ensures nextConn == old(nextConn) && users == old(users) && byNickname == old(byNickname)
      ensures notifications == old(notifications) && nextNotificationId == old(nextNotificationId)
      ensures messages == old(messages)
    {
      BroadcastWithList(NewUser(userID, nickname, true), faults);
    }

    /**
     * BroadcastNotification: a "message" notification is inserted first (a failed insert is
     * only logged and leaves the id 0); the actor must exist; any other type reports its latest
     * notification, and there must be one; the unread count is read; then the event goes to the
     * receiver's connection alone, if registered. delivered is the event written, if any.
     */
    method BroadcastNotification(receiverID: string, actorID: string, kind: string, now: int, faults: set<HubFault>)
      returns (delivered: Option<Event>)
      requires Valid()
      modifies this
      ensures Valid()
      ensures clients == old(clients) && chatClients == old(chatClients) && failed == old(failed)
      ensures nextConn == old(nextConn) && users == old(users) && byNickname == old(byNickname)
      ensures messages == old(messages)
      ensures kind == "message" && NotificationInsertFails !in faults ==>
                notifications == old(notifications)[old(nextNotificationId) :=
                                   NotificationRecord(receiverID, actorID, kind, Some(0), now, false)]
                && nextNotificationId == old(nextNotificationId) + 1
      ensures !(kind == "message" && NotificationInsertFails !in faults) ==>
                notifications == old(notifications) && nextNotificationId == old(nextNotificationId)
      ensures delivered.None? <==>
                actorID !in users
                || (kind != "message" && MatchingIds(notifications, receiverID, actorID, kind) == {})
                || CountFails in faults || receiverID !in clients || clients[receiverID] in failed
      ensures delivered.None? ==> outbox == old(outbox)
      ensures delivered.Some? ==> receiverID in clients && outbox == Send(old(outbox), clients[receiverID], delivered.value)
      ensures delivered.Some? ==>
                delivered.value.NewNotification? && delivered.value.receiverId == receiverID
                && delivered.value.unreadCount == |UnreadIds(notifications, receiverID)|
                && delivered.value.notification.kind == kind
                && delivered.value.notification.actorID == actorID
                && delivered.value.notification.actorName == users[actorID].nickname
                && delivered.value.notification.actorProfilePic == PicOrEmpty(users[actorID].profilePic)
      ensures delivered.Some? && kind == "message" ==>
                delivered.value.notification.id == (if NotificationInsertFails in faults then 0 else old(nextNotificationId))
      ensures delivered.Some? && kind != "message" ==>
                IsLatest(notifications, delivered.value.notification.id, receiverID, actorID, kind)
    {
      delivered := None;
      var notificationID := 0;
      if kind == "message" && NotificationInsertFails !in faults {
        notificationID := nextNotificationId;
        notifications := notifications[nextNotificationId := NotificationRecord(receiverID, actorID, kind, Some(0), now, false)];
        nextNotificationId := nextNotificationId + 1;
      }
      if actorID !in users {
        return;
      }
      var actor := users[actorID];
      if notificationID == 0 && kind != "message" {
        var candidates := MatchingIds(notifications, receiverID, actorID, kind);
        if candidates == {} {
          return;
        }
        var x :| x in candidates;
        LatestExists(notifications, receiverID, actorID, kind, x);
        notificationID :| IsLatest(notifications, notificationID, receiverID, actorID, kind);
      }
      if CountFails in faults {
        return;
      }
      var unreadCount := |UnreadIds(notifications, receiverID)|;
      var e := NewNotification(NotificationData(notificationID, kind, actor.nickname, actorID, PicOrEmpty(actor.profilePic)),
                               unreadCount, receiverID);
      if receiverID in clients {
        var ok := WriteJson(clients[receiverID], e);
        if ok {
          delivered := Some(e);
        }
      }
    }

    /**
     * BroadcastNewMessage: refresh_users and the users list to everyone, then a "message"
     * notification from the sender to the receiver.
     */
    method BroadcastNewMessage(senderID: string, receiverID: string, now: int, faults: set<HubFault>)
      returns (delivered: Option<Event>)
      requires Valid()
      modifies this
      ensures Valid()
      ensures clients == old(clients) && chatClients == old(chatClients) && failed == old(failed)
      ensures nextConn == old(nextConn) && users == old(users) && byNickname == old(byNickname)
      ensures messages == old(messages)
      ensures NotificationInsertFails !in faults ==>
                notifications == old(notifications)[old(nextNotificationId) :=
                                   NotificationRecord(receiverID, senderID, "message", Some(0), now, false)]
      ensures NotificationInsertFails in faults ==> notifications == old(notifications)
      ensures delivered.None? <==>
                senderID !in users || CountFails in faults || receiverID !in clients || clients[receiverID] in failed
      ensures var broadcast := DeliverAll(old(outbox), clients.Values, failed,
                                          [RefreshUsers(senderID, receiverID)] + ListEvents(faults, users, byNickname));
              if delivered.Some? then receiverID in clients && outbox == Send(broadcast, clients[receiverID], delivered.value)
              else outbox == broadcast
      ensures delivered.Some? ==>
                delivered.value.NewNotification? && delivered.value.receiverId == receiverID
                && delivered.value.notification.id == (if NotificationInsertFails in faults then 0 else old(nextNotificationId))
                && delivered.value.unreadCount == |UnreadIds(notifications, receiverID)|
      ensures outbox == NewMessageOutbox(old(outbox), clients, failed, users, byNickname, notifications,
                                         if NotificationInsertFails in faults then 0 else old(nextNotificationId),
                                         senderID, receiverID, faults)
      ensures Grows(old(outbox), outbox)
    {
      DeliverAllGrows(outbox, clients.Values, failed, [RefreshUsers(senderID, receiverID)] + ListEvents(faults, users, byNickname));
      ghost var before := outbox;
      BroadcastWithList(RefreshUsers(senderID, receiverID), faults);
      ghost var broadcast := outbox;
      ghost var noteId := if NotificationInsertFails in faults then 0 else nextNotificationId;
      delivered := BroadcastNotification(receiverID, senderID, "message", now, faults);
      if delivered.Some? {
        assert delivered.value == MessageNotice(users, notifications, noteId, senderID, receiverID);
      }
      assert outbox == NewMessageOutbox(before, clients, failed, users, byNickname, notifications, noteId,
                                        senderID, receiverID, faults);
    }

    /** TriggerUsersListBroadcast: POST only (otherwise 405), then the users list to everyone. */
    method TriggerUsersListBroadcast(verb: string, faults: set<HubFault>) returns (status: int)
      requires Valid()
      modifies this
      ensures Valid()
      ensures status == (if verb == "POST" then 200 else 405)
      ensures verb != "POST" ==> outbox == old(outbox)
      ensures verb == "POST" ==> outbox == DeliverAll(old(outbox), clients.Values, failed, ListEvents(faults, users, byNickname))
      ensures clients == old(clients) && chatClients == old(chatClients) && failed == old(failed)
      ensures nextConn == old(nextConn) && users == old(users) && byNickname == old(byNickname)
      ensures notifications == old(notifications) && nextNotificationId == old(nextNotificationId)
      ensures messages == old(messages)
    {
      if verb != "POST" {
        return 405;
      }
      BroadcastUsersList(faults);
      return 200;
    }

    /**
     * HandleWebSocket up to its read loop: an empty user_id gets 400 and changes nothing;
     * otherwise a new connection replaces any earlier one registered for the user, which stays
     * open, and the user is announced online. 101 is the protocol switch.
     */
    method Connect(userID: string, faults: set<HubFault>) returns (status: int, conn: Option<ConnId>)
      requires Valid()
      modifies this
      ensures Valid()
      ensures status == 400 <==> userID == ""
      ensures userID == "" ==> conn.None? && clients == old(clients) && outbox == old(outbox) && users == old(users)
      ensures userID != "" ==>
                status == 101 && conn == Some(old(nextConn)) && old(nextConn) !in old(outbox)
                && clients == old(clients)[userID := old(nextConn)]
                && users == SetOnline(old(users), userID, true, faults)
                && outbox == DeliverAll(old(outbox)[old(nextConn) := []], clients.Values, failed,
                                        [UserStatus(userID, true)] + ListEvents(faults, users, byNickname))
      ensures chatClients == old(chatClients) && failed == old(failed) && byNickname == old(byNickname)
      ensures notifications == old(notifications) && nextNotificationId == old(nextNotificationId)
      ensures messages == old(messages)
    {
      if userID == "" {
        return 400, None;
      }
      var c := Register(userID);
      BroadcastUserStatus(userID, true, faults);
      return 101, Some(c);
    }

    /** The upgrade and registration: a fresh connection with an empty outbox, under userID. */
    method Register(userID: string) returns (c: ConnId)
      requires Valid()
      modifies this
      ensures Valid()
      ensures c == old(nextConn) && c !in old(outbox)
      ensures clients == old(clients)[userID := c] && outbox == old(outbox)[c := []]
      ensures chatClients == old(chatClients) && failed == old(failed) && byNickname == old(byNickname)
      ensures users == old(users) && messages == old(messages)
      ensures notifications == old(notifications) && nextNotificationId == old(nextNotificationId)
    {
      c := nextConn;
      assert forall u :: u in clients ==> clients[u] != c;
      nextConn := nextConn + 1;
      outbox := outbox[c := []];
      clients := clients[userID := c];
    }

    /**
     * The deferred clean-up of HandleWebSocket as written: the user's entry is deleted whether
     * or not it is still this connection, the connection is closed and the user is announced
     * offline.
     */
    method DisconnectAsWritten(userID: string, conn: ConnId, faults: set<HubFault>)
      requires Valid()
      modifies this
      ensures Valid()
      ensures clients == old(clients) - {userID}
      ensures failed == old(failed) + {conn}
      ensures users == SetOnline(old(users), userID, false, faults)
      ensures outbox == DeliverAll(old(outbox), clients.Values, failed,
                                   [UserStatus(userID, false)] + ListEvents(faults, users, byNickname))
      ensures chatClients == old(chatClients) && nextConn == old(nextConn) && byNickname == old(byNickname)
      ensures notifications == old(notifications) && nextNotificationId == old(nextNotificationId)
      ensures messages == old(messages)
    {
      clients := clients - {userID};
      failed := failed + {conn};
      BroadcastUserStatus(userID, false, faults);
    }

    /**
     * The clean-up as intended: the connection is closed, and only when it is still the one
     * registered for the user is the entry deleted and the user announced offline; a newer
     * connection of the same user keeps its registration.
     */
    method Disconnect(userID: string, conn: ConnId, faults: set<HubFault>)
      requires Valid()
      modifies this
      ensures Valid()
      ensures failed == old(failed) + {conn}
      ensures userID in old(clients) && old(clients)[userID] != conn ==>
                clients == old(clients) && users == old(users) && outbox == old(outbox)
      ensures userID in old(clients) && old(clients)[userID] == conn ==>
                clients == old(clients) - {userID}
                && users == SetOnline(old(users), userID, false, faults)
                && outbox == DeliverAll(old(outbox), clients.Values, failed,
                                        [UserStatus(userID, false)] + ListEvents(faults, users, byNickname))
      ensures userID !in old(clients) ==> clients == old(clients) && users == old(users) && outbox == old(outbox)
      ensures chatClients == old(chatClients) && nextConn == old(nextConn) && byNickname == old(byNickname)
      ensures notifications == old(notifications) && nextNotificationId == old(nextNotificationId)
      ensures messages == old(messages)
    {
      failed := failed + {conn};
      if userID in clients && clients[userID] == conn {
        clients := clients - {userID};
        BroadcastUserStatus(userID, false, faults);
      }
    }
  }

  /** The registry after the as-written clean-up of conn for userID. */
  function RegistryAfterDisconnectAsWritten(clients: map<string, ConnId>, userID: string, conn: ConnId)
    : (r: map<string, ConnId>)
    ensures userID !in r
    ensures forall u :: u != userID ==> (u in r <==> u in clients)
  {
    clients - {userID}
  }

  /** The registry after the intended clean-up of conn for userID. */
  function RegistryAfterDisconnect(clients: map<string, ConnId>, userID: string, conn: ConnId)
    : (r: map<string, ConnId>)
    ensures userID in clients && clients[userID] != conn ==> r == clients
    ensures userID in clients && clients[userID] == conn ==> r == clients - {userID}
  {
    if userID in clients && clients[userID] == conn then clients - {userID} else clients
  }

  /**
   * A user connects twice (connections 0 then 1) and the first connection closes: as written,
   * the user is no longer registered although connection 1 is open; the intended clean-up
   * keeps connection 1 registered.
   */
  lemma OlderDisconnectDropsNewer()
    ensures var registry := map["u" := 0][ "u" := 1];
            "u" !in RegistryAfterDisconnectAsWritten(registry, "u", 0)
            && RegistryAfterDisconnect(registry, "u", 0) == map["u" := 1]
  {
  }
}
