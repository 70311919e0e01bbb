// static/js/components/notifications/notifications.js: the notifications page's local state
// (the listed notifications and the unread count) as it changes when one is marked read, and
// the message and link each listed notification gets. The request to the server is a
// success flag; the navbar dot and the rendered HTML are outside the model.
module NotificationsPage {
  import opened Wrappers
  import opened Strings
  import opened JsValues
  import NotificationToast

  /** A listed notification; fields the page reads but the object lacks are Undefined. */
  datatype PageNotification = PageNotification(
    id: int, kind: Option<string>, postID: JsValue, actorName: JsValue, actorID: JsValue, isRead: bool)

  /** Array.prototype.find by id: the index of the first notification with that id, or -1. */
  function FindIndex(notes: seq<PageNotification>, id: int): (i: int)
    ensures -1 <= i < |notes|
    ensures i >= 0 ==> notes[i].id == id && forall k :: 0 <= k < i ==> notes[k].id != id
    ensures i == -1 <==> forall k :: 0 <= k < |notes| ==> notes[k].id != id
  {
    if notes == [] then -1
    else if notes[|notes| - 1].id == id && FindIndex(notes[..|notes| - 1], id) == -1 then |notes| - 1
    else FindIndex(notes[..|notes| - 1], id)
  }

  /** How many of the notifications are unread. */
  function UnreadIn(notes: seq<PageNotification>): (n: nat)
    ensures n <= |notes|
  {
    if notes == [] then 0 else UnreadIn(notes[..|notes| - 1]) + (if notes[|notes| - 1].isRead then 0 else 1)
  }

  /** Marking the notification at i read lowers the unread total by one exactly when it was unread. */
  lemma {:induction false} UnreadAfterMark(notes: seq<PageNotification>, i: int)
    requires 0 <= i < |notes|
    ensures UnreadIn(notes[i := notes[i].(isRead := true)]) == UnreadIn(notes) - (if notes[i].isRead then 0 else 1)
  {
    var marked := notes[i := notes[i].(isRead := true)];
    var last := |notes| - 1;
    if i < last {
      UnreadAfterMark(notes[..last], i);
      assert marked[..last] == notes[..last][i := notes[i].(isRead := true)];
    } else {
      assert marked[..last] == notes[..last];
    }
  }

  /** The local state markAsRead leaves after the server accepted, as written: found ⇒ read and one fewer. */
  function MarkedAsWritten(notes: seq<PageNotification>, unreadCount: int, id: int)
    : (r: (seq<PageNotification>, int))
    ensures |r.0| == |notes|
    ensures FindIndex(notes, id) == -1 ==> r == (notes, unreadCount)
    ensures FindIndex(notes, id) >= 0 ==>
              var i := FindIndex(notes, id);
              r.0 == notes[i := notes[i].(isRead := true)] && r.1 == (if unreadCount - 1 < 0 then 0 else unreadCount - 1)
              && r.1 >= 0
  {
    var i := FindIndex(notes, id);
    if i < 0 then (notes, unreadCount)
    else (notes[i := notes[i].(isRead := true)], if unreadCount - 1 < 0 then 0 else unreadCount - 1)
  }

  /**
   * Marking an already-read notification still lowers the count. markAsRead does not render the
   * page again, so a notification's mark-read button stays after the first click: with two
   * unread notifications and a count of 2, marking the first one twice leaves a count of 0
   * beside an unread notification.
   */
  lemma ReadAgainDecrements()
    ensures var notes := [PageNotification(1, Some("like"), Num(1), Str("a"), Str("x"), false),
                          PageNotification(2, Some("comment"), Num(2), Str("b"), Str("y"), false)];
            && UnreadIn(notes) == 2
            && var once := MarkedAsWritten(notes, 2, 1);
               var twice := MarkedAsWritten(once.0, once.1, 1);
               twice.1 == 0 && UnreadIn(twice.0) == 1
  {
    var notes := [PageNotification(1, Some("like"), Num(1), Str("a"), Str("x"), false),
                  PageNotification(2, Some("comment"), Num(2), Str("b"), Str("y"), false)];
    assert notes[..1][..0] == [];
    assert UnreadIn(notes[..1]) == 1;
    assert FindIndex(notes, 1) == 0;
    var marked := notes[0 := notes[0].(isRead := true)];
    assert FindIndex(marked, 1) == 0;
    assert marked[..1][..0] == [];
    assert UnreadIn(marked[..1]) == 0;
    assert marked[0 := marked[0].(isRead := true)] == marked;
  }

  /** The local state markAsRead should leave: the count drops only for a notification that was unread. */
  function Marked(notes: seq<PageNotification>, unreadCount: int, id: int): (r: (seq<PageNotification>, int))
    ensures |r.0| == |notes|
    ensures FindIndex(notes, id) == -1 ==> r == (notes, unreadCount)
    ensures FindIndex(notes, id) >= 0 ==>
              var i := FindIndex(notes, id);
              r.0 == notes[i := notes[i].(isRead := true)]
              && r.1 == (if notes[i].isRead || unreadCount - 1 < 0 then unreadCount else unreadCount - 1)
    ensures unreadCount >= 0 ==> r.1 >= 0
  {
    var i := FindIndex(notes, id);
    if i < 0 || notes[i].isRead || unreadCount - 1 < 0 then
      (if i < 0 then notes else notes[i := notes[i].(isRead := true)], unreadCount)
    else (notes[i := notes[i].(isRead := true)], unreadCount - 1)
  }

  /** A count that matches the unread notifications still matches after Marked. */
  lemma MarkedKeepsCount(notes: seq<PageNotification>, unreadCount: int, id: int)
    requires unreadCount == UnreadIn(notes)
    ensures Marked(notes, unreadCount, id).1 == UnreadIn(Marked(notes, unreadCount, id).0)
  {
    var i := FindIndex(notes, id);
    if i >= 0 {
      UnreadAfterMark(notes, i);
    }
  }

  /** Marking twice is marking once. */
  lemma MarkedIdempotent(notes: seq<PageNotification>, unreadCount: int, id: int)
    ensures var r := Marked(notes, unreadCount, id);
            Marked(r.0, r.1, id) == r
  {
    var r := Marked(notes, unreadCount, id);
    var i := FindIndex(notes, id);
    if i >= 0 {
      assert forall k :: 0 <= k < |r.0| ==> r.0[k].id == notes[k].id;
      assert FindIndex(r.0, id) == i;
      assert r.0[i := r.0[i].(isRead := true)] == r.0;
    }
  }

  class NotificationsComponent {
    var notifications: seq<PageNotification>
    var unreadCount: int
    /** AuthService.getCurrentUser()?.id, read when the page is created. */
    var currentUserId: JsValue

    constructor (userId: JsValue)
      ensures notifications == [] && unreadCount == 0 && currentUserId == userId
    {
      notifications := [];
      unreadCount := 0;
      currentUserId := userId;
    }

    /**
     * markAsRead as written: false with nothing changed when the server refuses; otherwise the
     * first notification with the id, if any, is marked read and the count drops by one, but
     * not below 0, whether or not that notification was unread.
     */
    method MarkAsReadAsWritten(notificationId: int, success: bool) returns (ok: bool)
      modifies this
      ensures ok == success
      ensures !success ==> notifications == old(notifications) && unreadCount == old(unreadCount)
      ensures success ==> (notifications, unreadCount) == MarkedAsWritten(old(notifications), old(unreadCount), notificationId)
      ensures success && FindIndex(old(notifications), notificationId) >= 0 ==> unreadCount >= 0
      ensures currentUserId == old(currentUserId)
    {
      if !success {
        return false;
      }
      var i := FindIndex(notifications, notificationId);
      if i >= 0 {
        notifications := notifications[i := notifications[i].(isRead := true)];
        unreadCount := if unreadCount - 1 < 0 then 0 else unreadCount - 1;
      }
      return true;
    }

    /** markAsRead with the count lowered only for a notification that was unread. */
    method MarkAsRead(notificationId: int, success: bool) returns (ok: bool)
      modifies this
      ensures ok == success
      ensures !success ==> notifications == old(notifications) && unreadCount == old(unreadCount)
      ensures success ==> (notifications, unreadCount) == Marked(old(notifications), old(unreadCount), notificationId)
      ensures old(unreadCount) == UnreadIn(old(notifications)) ==> unreadCount == UnreadIn(notifications)
      ensures currentUserId == old(currentUserId)
    {
      if !success {
        return false;
      }
      if unreadCount == UnreadIn(notifications) {
        MarkedKeepsCount(notifications, unreadCount, notificationId);
      }
      var i := FindIndex(notifications, notificationId);
      if i >= 0 {
        if !notifications[i].isRead && unreadCount - 1 >= 0 {
          unreadCount := unreadCount - 1;
        }
        notifications := notifications[i := notifications[i].(isRead := true)];
      }
      return true;
    }

    /** getNotificationLink for a listed notification; missing ids print as "undefined". */
    function GetNotificationLink(n: PageNotification): (link: string)
      reads this
      ensures n.kind in {Some("like"), Some("comment"), Some("mention")} ==> link == "/?id=" + Render(n.postID)
      ensures n.kind == Some("follow") ==> link == "/profile?id=" + Render(n.actorID)
      ensures n.kind == Some("message") ==> link == "/chat?user1=" + Render(currentUserId) + "&user2=" + Render(n.actorID)
      ensures n.kind !in {Some("like"), Some("comment"), Some("mention"), Some("follow"), Some("message")} ==> link == "/"
    {
      PageLink(n, currentUserId)
    }
  }

  function PageLink(n: PageNotification, currentUserId: JsValue): string
  {
    if n.kind in {Some("like"), Some("comment"), Some("mention")} then "/?id=" + Render(n.postID)
    else if n.kind == Some("follow") then "/profile?id=" + Render(n.actorID)
    else if n.kind == Some("message") then "/chat?user1=" + Render(currentUserId) + "&user2=" + Render(n.actorID)
    else "/"
  }

  /** What the page says happened, one phrase per known type. */
  function Phrase(kind: Option<string>): (p: string)
    ensures p == "liked your post" <==> kind == Some("like")
    ensures p == "commented on your post" <==> kind == Some("comment")
    ensures p == "mentioned you in a post" <==> kind == Some("mention")
    ensures p == "started following you" <==> kind == Some("follow")
    ensures p == "sent you a message" <==> kind == Some("message")
    ensures p == "interacted with your content" <==>
              kind !in {Some("like"), Some("comment"), Some("mention"), Some("follow"), Some("message")}
  {
    if kind == Some("like") then "liked your post"
    else if kind == Some("comment") then "commented on your post"
    else if kind == Some("mention") then "mentioned you in a post"
    else if kind == Some("follow") then "started following you"
    else if kind == Some("message") then "sent you a message"
    else "interacted with your content"
  }

  /** formatNotificationMessage: the actor's name printed as it is (no default), then the phrase. */
  function FormatNotificationMessage(n: PageNotification): string
  {
    "<strong>" + Render(n.actorName) + "</strong> " + Phrase(n.kind)
  }

  /** The toast's view of the same notification. */
  function AsToast(n: PageNotification): NotificationToast.ToastNotification
  {
    NotificationToast.ToastNotification(n.kind, if n.actorName.Str? then Some(n.actorName.s) else None, None,
                                        n.postID, Undefined, n.actorID, Undefined)
  }

  /**
   * The page and the toast print the same message for a named actor and a type both know,
   * the toast adding "just now"; a missing name is printed as "undefined" on the page where
   * the toast says "Someone".
   */
  lemma MessagesAgreeWithToast(n: PageNotification)
    ensures n.actorName.Str? && n.actorName.s != "" && n.kind !in {Some("mention"), Some("follow")} ==>
              FormatNotificationMessage(n) + NotificationToast.JustNow
              == NotificationToast.FormatNotificationMessage(AsToast(n))
    ensures n.actorName == Undefined ==>
              FormatNotificationMessage(n) == "<strong>undefined</strong> " + Phrase(n.kind)
              && NotificationToast.ShownName(AsToast(n)) == "Someone"
  {
    if n.actorName == Undefined {
      assert "<strong>" + "undefined" + "</strong> " == "<strong>undefined</strong> ";
    }
  }

  /**
   * The page and the toast agree on the link of a like or comment with a post id and of a
   * message with both user ids; without the post id the toast leads home while the page
   * prints "undefined" into the link.
   */
  lemma LinksAgreeWithToast(n: PageNotification, currentUserId: string)
    ensures n.kind in {Some("like"), Some("comment")} && Truthy(n.postID) ==>
              PageLink(n, Str(currentUserId)) == NotificationToast.GetNotificationLink(AsToast(n), Some(currentUserId))
    ensures n.kind == Some("message") && currentUserId != "" && Truthy(n.actorID) ==>
              PageLink(n, Str(currentUserId)) == NotificationToast.GetNotificationLink(AsToast(n), Some(currentUserId))
    ensures n.kind in {Some("like"), Some("comment")} && n.postID == Undefined ==>
              PageLink(n, Str(currentUserId)) == "/?id=undefined"
              && NotificationToast.GetNotificationLink(AsToast(n), Some(currentUserId)) == "/"
  {
  }
}
