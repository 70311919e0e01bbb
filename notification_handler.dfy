// controllers/notification_handler.go: the (method, path) routing of ServeHTTP, the scan loop
// of getUserNotifications with its unread count, and the two mark-as-read updates over the
// notifications table.
module NotificationHandler {
  import opened Wrappers
  import PostHandler

  // ---------------------------------------------------------------------------------------
  // ServeHTTP

  datatype NotificationRoute = NotificationsPage | NotificationsJson | NotificationCount
                             | MarkRead | MarkAllRead | MethodNotAllowed

  /** The five (method, path) pairs that dispatch. */
  const Routes: map<(string, string), NotificationRoute> := map[
    ("GET", "/notifications") := NotificationsPage,
    ("GET", "/api/notifications") := NotificationsJson,
    ("GET", "/api/notifications/count") := NotificationCount,
    ("POST", "/notifications/mark-read") := MarkRead,
    ("POST", "/notifications/mark-all-read") := MarkAllRead
  ]

  function ServeHTTP(verb: string, path: string): (r: NotificationRoute)
    ensures (verb, path) in Routes ==> r == Routes[(verb, path)]
    ensures (verb, path) !in Routes <==> r == MethodNotAllowed
  {
    if verb == "GET" && path == "/notifications" then NotificationsPage
    else if verb == "GET" && path == "/api/notifications" then NotificationsJson
    else if verb == "GET" && path == "/api/notifications/count" then NotificationCount
    else if verb == "POST" && path == "/notifications/mark-read" then MarkRead
    else if verb == "POST" && path == "/notifications/mark-all-read" then MarkAllRead
    else MethodNotAllowed
  }

  // ---------------------------------------------------------------------------------------
  // getUserNotifications

  /**
   * One row of the notifications/users join, in the query's order; BadRow is a row rows.Scan
   * rejects. postId and actorPic are the nullable columns.
   */
  datatype FetchedRow =
    | BadRow
    | FetchedRow(id: int, kind: string, createdAt: int, postId: Option<int>, actorName: string,
                 actorPic: Option<string>, isRead: bool, actorId: string)

  datatype Notification = Notification(id: int, kind: string, createdAt: int, postId: int,
                                       actorName: string, actorProfilePic: string, isRead: bool,
                                       actorId: string, createdAtFormatted: string)

  /**
   * The notification built from a scanned row at instant now: a NULL post id becomes 0, a
   * NULL picture ""; dateOf renders an instant as "Jan 2, 2006".
   */
  function FromRow(row: FetchedRow, now: int, dateOf: int -> string): (n: Notification)
    requires row.FetchedRow?
    ensures n.postId == (if row.postId.Some? then row.postId.value else 0)
    ensures n.actorProfilePic == (if row.actorPic.Some? then row.actorPic.value else "")
    ensures n.id == row.id && n.isRead == row.isRead && n.actorId == row.actorId
  {
    Notification(row.id, row.kind, row.createdAt,
                 if row.postId.Some? then row.postId.value else 0,
                 row.actorName,
                 if row.actorPic.Some? then row.actorPic.value else "",
                 row.isRead, row.actorId,
                 PostHandler.FormatTimeAgo(now - row.createdAt, dateOf(row.createdAt)))
  }

  /** The notifications of the well-scanned rows, in row order. */
  function Listing(rows: seq<FetchedRow>, now: int, dateOf: int -> string): seq<Notification>
  {
    if rows == [] then []
    else
      var last := rows[|rows| - 1];
      Listing(rows[..|rows| - 1], now, dateOf) + (if last.BadRow? then [] else [FromRow(last, now, dateOf)])
  }

  /** How many notifications of the list are unread. */
  function CountUnread(list: seq<Notification>): (n: nat)
    ensures n <= |list|
  {
    if list == [] then 0 else CountUnread(list[..|list| - 1]) + (if list[|list| - 1].isRead then 0 else 1)
  }

  /** How many rows scan: never more than there are, and all of them when none is bad. */
  function CountGoodRows(rows: seq<FetchedRow>): (n: nat)
    ensures n <= |rows|
    ensures (forall i :: 0 <= i < |rows| ==> !rows[i].BadRow?) ==> n == |rows|
    ensures (forall i :: 0 <= i < |rows| ==> rows[i].BadRow?) ==> n == 0
  {
    if rows == [] then 0 else CountGoodRows(rows[..|rows| - 1]) + (if rows[|rows| - 1].BadRow? then 0 else 1)
  }

  /**
   * getUserNotifications over the fetched rows: the scan loop that skips bad rows, appends
   * the others and counts the unread ones.
   */
  method GetUserNotifications(rows: seq<FetchedRow>, now: int, dateOf: int -> string)
    returns (notifications: seq<Notification>, unreadCount: int)
    ensures notifications == Listing(rows, now, dateOf)
    ensures unreadCount == CountUnread(notifications)
  {
    notifications := [];
    unreadCount := 0;
    var i := 0;
    while i < |rows|
      invariant 0 <= i <= |rows|
      invariant notifications == Listing(rows[..i], now, dateOf)
      invariant unreadCount == CountUnread(notifications)
    {
      assert rows[..i + 1][..i] == rows[..i];
      var row := rows[i];
      if row.BadRow? {
        i := i + 1;
        continue;
      }
      var n := FromRow(row, now, dateOf);
      if !n.isRead {
        unreadCount := unreadCount + 1;
      }
      notifications := notifications + [n];
      assert notifications[..|notifications| - 1] == Listing(rows[..i], now, dateOf);
      i := i + 1;
    }
    assert rows[..i] == rows;
  }

  /** One notification per well-scanned row: rows that fail to scan are in neither the list nor the count. */
  lemma {:induction false} ListingLength(rows: seq<FetchedRow>, now: int, dateOf: int -> string)
    ensures |Listing(rows, now, dateOf)| == CountGoodRows(rows)
  {
    if rows != [] {
      ListingLength(rows[..|rows| - 1], now, dateOf);
    }
  }

  /** A row that fails to scan changes neither the list nor therefore the unread count. */
  lemma BadRowIgnored(rows: seq<FetchedRow>, now: int, dateOf: int -> string)
    ensures Listing(rows + [BadRow], now, dateOf) == Listing(rows, now, dateOf)
  {
    assert (rows + [BadRow])[..|rows|] == rows;
  }

  /** The JSON answer of handleGetNotificationsJSON. */
  datatype NotificationsResponse =
    | Unauthorized
    | ServerError
      // A nil Go slice encodes as null: Notifications is None when no row scanned.
    | NotificationsBody(notifications: Option<seq<Notification>>, unreadCount: int, currentUserID: string)

  /**
   * handleGetNotificationsJSON: 401 without a valid session, 500 when the query fails,
   * otherwise the listing of the fetched rows (null when empty), its unread count and the user.
   */
  method HandleGetNotificationsJson(userID: Option<string>, queryFails: bool, rows: seq<FetchedRow>,
                                    now: int, dateOf: int -> string)
    returns (response: NotificationsResponse)
    ensures userID.None? <==> response.Unauthorized?
    ensures response.ServerError? <==> userID.Some? && queryFails
    ensures response.NotificationsBody? ==>
              var list := Listing(rows, now, dateOf);
              response.currentUserID == userID.value
              && response.notifications == (if list == [] then None else Some(list))
              && response.unreadCount == CountUnread(list)
  {
    if userID.None? {
      return Unauthorized;
    }
    if queryFails {
      return ServerError;
    }
    var list, unread := GetUserNotifications(rows, now, dateOf);
    response := NotificationsBody(if list == [] then None else Some(list), unread, userID.value);
  }

  // ---------------------------------------------------------------------------------------
  // The notifications table and the mark-as-read handlers

  /** Notification ids come from an autoincrement column. */
  type NotificationId = nat

  datatype NotificationRecord = NotificationRecord(userId: string, actorId: string, kind: string,
                                                   postId: Option<int>, createdAt: int, isRead: bool)

  /** The ids of a user's unread notifications. */
  function UnreadIds(table: map<NotificationId, NotificationRecord>, userID: string): set<NotificationId>
  {
    set id | id in table && table[id].userId == userID && !table[id].isRead
  }

  /** A user has no unread id exactly when every notification of theirs is read. */
  lemma NoUnreadIds(table: map<NotificationId, NotificationRecord>, userID: string)
    ensures UnreadIds(table, userID) == {} <==> forall id :: id in table && table[id].userId == userID ==> table[id].isRead
  {
    var unread := UnreadIds(table, userID);
    if unread != {} {
      var x :| x in unread;
      assert !table[x].isRead;
    } else {
      forall id | id in table && table[id].userId == userID
        ensures table[id].isRead
      {
        assert id !in unread;
      }
    }
  }

  /** The table after UPDATE ... SET is_read = true WHERE id = ? AND user_id = ?. */
  function MarkedRead(table: map<NotificationId, NotificationRecord>, id: int, userID: string): (t: map<NotificationId, NotificationRecord>)
    ensures t.Keys == table.Keys
    ensures forall k :: k in table && !(k == id && table[k].userId == userID) ==> t[k] == table[k]
    ensures id in table && table[id].userId == userID ==> t[id] == table[id].(isRead := true)
  {
    map k | k in table :: if k == id && table[k].userId == userID then table[k].(isRead := true) else table[k]
  }

  /** The table after UPDATE ... SET is_read = true WHERE user_id = ? AND is_read = false. */
  function AllMarkedRead(table: map<NotificationId, NotificationRecord>, userID: string): (t: map<NotificationId, NotificationRecord>)
    ensures t.Keys == table.Keys
    ensures forall k :: k in table && table[k].userId != userID ==> t[k] == table[k]
    ensures forall k :: k in table && table[k].userId == userID ==> t[k] == table[k].(isRead := true)
  {
    map k | k in table :: if table[k].userId == userID && !table[k].isRead then table[k].(isRead := true) else table[k]
  }

  /** Marking one notification read removes at most that id from the user's unread set. */
  lemma MarkedReadUnread(table: map<NotificationId, NotificationRecord>, id: int, userID: string)
    ensures UnreadIds(MarkedRead(table, id, userID), userID) == UnreadIds(table, userID) - {id}
  {
  }

  /** After mark-all the user has no unread notification left. */
  lemma AllMarkedReadClears(table: map<NotificationId, NotificationRecord>, userID: string)
    ensures UnreadIds(AllMarkedRead(table, userID), userID) == {}
  {
    assert forall k :: k in UnreadIds(AllMarkedRead(table, userID), userID) ==> false;
  }

  /** Mark-all leaves every other user's unread notifications as they were. */
  lemma AllMarkedReadOthers(table: map<NotificationId, NotificationRecord>, userID: string, other: string)
    requires other != userID
    ensures UnreadIds(AllMarkedRead(table, userID), other) == UnreadIds(table, other)
  {
  }

  class NotificationStore {
    var table: map<NotificationId, NotificationRecord>

    constructor ()
      ensures table == map[]
    {
      table := map[];
    }

    /** GetUnreadCount: SELECT COUNT(*) of the user's unread notifications. */
    function GetUnreadCount(userID: string): (n: nat)
      reads this
      ensures n == 0 <==> forall id :: id in table && table[id].userId == userID ==> table[id].isRead
    {
      NoUnreadIds(table, userID);
      |UnreadIds(table, userID)|
    }

    /**
     * handleMarkAsRead: the session's user (None answers 401), the decoded notification_id (None
     * answers 400); 500 when the update fails, else 200 with only the matching row updated.
     */
    method HandleMarkAsRead(userID: Option<string>, notificationID: Option<int>, updateFails: bool)
      returns (status: int)
      modifies this
      ensures userID.None? ==> status == 401
      ensures userID.Some? && notificationID.None? ==> status == 400
      ensures status == 200 <==> userID.Some? && notificationID.Some? && !updateFails
      ensures status == 200 ==> table == MarkedRead(old(table), notificationID.value, userID.value)
      ensures status != 200 ==> table == old(table)
    {
      if userID.None? {
        return 401;
      }
      if notificationID.None? {
        return 400;
      }
      if updateFails {
        return 500;
      }
      table := MarkedRead(table, notificationID.value, userID.value);
      return 200;
    }

    /**
     * handleMarkAllAsRead: 401 without a valid session, 500 when the update fails; otherwise
     * markedAsRead reports the rows updated (0 when RowsAffected fails) and newUnreadCount is 0.
     */
    method HandleMarkAllAsRead(userID: Option<string>, updateFails: bool, rowsAffectedFails: bool)
      returns (status: int, markedAsRead: int, newUnreadCount: int)
      modifies this
      ensures status == 200 <==> userID.Some? && !updateFails
      ensures userID.None? ==> status == 401
      ensures status != 200 ==> table == old(table)
      ensures status == 200 ==> table == AllMarkedRead(old(table), userID.value)
      ensures status == 200 ==> markedAsRead == (if rowsAffectedFails then 0 else |UnreadIds(old(table), userID.value)|)
      ensures status == 200 ==> newUnreadCount == 0 && GetUnreadCount(userID.value) == 0
    {
      markedAsRead, newUnreadCount := 0, 0;
      if userID.None? {
        return 401, markedAsRead, newUnreadCount;
      }
      if updateFails {
        return 500, markedAsRead, newUnreadCount;
      }
      var rowsAffected := |UnreadIds(table, userID.value)|;
      table := AllMarkedRead(table, userID.value);
      AllMarkedReadClears(old(table), userID.value);
      assert UnreadIds(table, userID.value) == {};
      if rowsAffectedFails {
        rowsAffected := 0;
      }
      return 200, rowsAffected, 0;
    }

    /** handleGetNotificationCount: 401 without a valid session, 500 when the count query fails. */
    method HandleGetNotificationCount(userID: Option<string>, queryFails: bool) returns (status: int, count: int)
      ensures userID.None? ==> status == 401
      ensures userID.Some? && queryFails ==> status == 500
      ensures status == 200 <==> userID.Some? && !queryFails
      ensures status == 200 ==> count == GetUnreadCount(userID.value)
    {
      if userID.None? {
        return 401, 0;
      }
      if queryFails {
        return 500, 0;
      }
      return 200, GetUnreadCount(userID.value);
    }
  }
}
