// static/js/notification-handler.js: the toast shown for a show_notification_popup event —
// its icon, avatar, message and the link its View button navigates to. The DOM, the
// animations and their timers are outside the model; localStorage's userId is a parameter.
module NotificationToast {
  import opened Wrappers
  import opened Strings
  import opened JsValues
  import WebSocketService

  /** The fields of the event's notification the toast reads, under both spellings of the ids. */
  datatype ToastNotification = ToastNotification(
    kind: Option<string>, actorName: Option<string>, actorProfilePic: Option<string>,
    postID: JsValue, post_id: JsValue, actorID: JsValue, actor_id: JsValue)

  /** The name a message shows: actorName || 'Someone'. */
  function ShownName(n: ToastNotification): (name: string)
    ensures n.actorName.Some? && n.actorName.value != "" ==> name == n.actorName.value
    ensures n.actorName.None? || n.actorName.value == "" ==> name == "Someone"
    ensures name != ""
  {
    if n.actorName.Some? && n.actorName.value != "" then n.actorName.value else "Someone"
  }

  /** The cases both switches on notification.type tell apart; any other type is Other. */
  datatype ToastKind = LikeKind | CommentKind | MessageKind | OtherKind

  function KindOf(kind: Option<string>): (k: ToastKind)
    ensures k == LikeKind <==> kind == Some("like")
    ensures k == CommentKind <==> kind == Some("comment")
    ensures k == MessageKind <==> kind == Some("message")
  {
    if kind == Some("like") then LikeKind
    else if kind == Some("comment") then CommentKind
    else if kind == Some("message") then MessageKind
    else OtherKind
  }

  /** What the toast says happened; the three known types each have their own phrase. */
  function Phrase(kind: Option<string>): (p: string)
    ensures p == "liked your post" <==> kind == Some("like")
    ensures p == "commented on your post" <==> kind == Some("comment")
    ensures p == "sent you a message" <==> kind == Some("message")
    ensures p == "interacted with your content" <==> kind !in {Some("like"), Some("comment"), Some("message")}
  {
    match KindOf(kind)
    case LikeKind => "liked your post"
    case CommentKind => "commented on your post"
    case MessageKind => "sent you a message"
    case OtherKind => "interacted with your content"
  }

  const JustNow: string := " <span class=\"notification-time\">just now</span>"

  /** formatNotificationMessage: the bold name, the phrase for the type, and "just now". */
  function FormatNotificationMessage(n: ToastNotification): string
  {
    "<strong>" + ShownName(n) + "</strong> " + Phrase(n.kind) + JustNow
  }

  /** Two messages that show the same name tell the same kind of event. */
  lemma SameMessageSameKind(n1: ToastNotification, n2: ToastNotification)
    requires ShownName(n1) == ShownName(n2)
    requires FormatNotificationMessage(n1) == FormatNotificationMessage(n2)
    ensures Phrase(n1.kind) == Phrase(n2.kind)
    ensures n1.kind == Some("like") <==> n2.kind == Some("like")
    ensures n1.kind == Some("message") <==> n2.kind == Some("message")
  {
    var head := "<strong>" + ShownName(n1) + "</strong> ";
    var m1 := FormatNotificationMessage(n1);
    var m2 := FormatNotificationMessage(n2);
    assert m1 == head + Phrase(n1.kind) + JustNow;
    assert m2 == head + Phrase(n2.kind) + JustNow;
    assert |Phrase(n1.kind)| == |Phrase(n2.kind)|;
    assert Phrase(n1.kind) == m1[|head|..|m1| - |JustNow|];
    assert Phrase(n2.kind) == m2[|head|..|m2| - |JustNow|];
  }

  /**
   * getNotificationLink: like and comment lead to the post (postID || post_id) or home
   * without one; message leads to the chat with the actor (actorID || actor_id) when both the
   * stored user id and the actor are known, to "/chat" otherwise; anything else leads home.
   * currentUserId is localStorage.getItem('userId').
   */
  function GetNotificationLink(n: ToastNotification, currentUserId: Option<string>): (link: string)
    ensures n.kind in {Some("like"), Some("comment")} && Truthy(n.postID) ==> link == "/?id=" + Render(n.postID)
    ensures n.kind in {Some("like"), Some("comment")} && !Truthy(n.postID) && Truthy(n.post_id) ==>
              link == "/?id=" + Render(n.post_id)
    ensures n.kind in {Some("like"), Some("comment")} && !Truthy(n.postID) && !Truthy(n.post_id) ==> link == "/"
    ensures (n.kind == Some("message") && currentUserId.Some? && currentUserId.value != ""
             && Truthy(Or(n.actorID, n.actor_id))) ==>
              link == "/chat?user1=" + currentUserId.value + "&user2=" + Render(Or(n.actorID, n.actor_id))
              && Render(Or(n.actorID, n.actor_id)) == Render(if Truthy(n.actorID) then n.actorID else n.actor_id)
    ensures (n.kind == Some("message") && !(currentUserId.Some? && currentUserId.value != ""
                                            && Truthy(Or(n.actorID, n.actor_id)))) ==> link == "/chat"
    ensures n.kind !in {Some("like"), Some("comment"), Some("message")} ==> link == "/"
  {
    var postId := Or(n.postID, n.post_id);
    var actorId := Or(n.actorID, n.actor_id);
    if n.kind == Some("like") || n.kind == Some("comment") then
      if !Truthy(postId) then "/" else "/?id=" + Render(postId)
    else if n.kind == Some("message") then
      if currentUserId.Some? && currentUserId.value != "" && Truthy(actorId) then
        "/chat?user1=" + currentUserId.value + "&user2=" + Render(actorId)
      else "/chat"
    else "/"
  }

  /** The Font Awesome icon for the type. */
  function Icon(kind: Option<string>): (icon: string)
    ensures icon == "fa-heart" <==> kind == Some("like")
    ensures icon == "fa-comment" <==> kind == Some("comment")
    ensures icon == "fa-envelope" <==> kind == Some("message")
    ensures icon == "fa-bell" <==> kind !in {Some("like"), Some("comment"), Some("message")}
  {
    match KindOf(kind)
    case LikeKind => "fa-heart"
    case CommentKind => "fa-comment"
    case MessageKind => "fa-envelope"
    case OtherKind => "fa-bell"
  }

  /** The icon and the phrase tell the same types apart: one determines the other. */
  lemma IconMatchesPhrase(k1: Option<string>, k2: Option<string>)
    ensures Icon(k1) == Icon(k2) <==> Phrase(k1) == Phrase(k2)
    ensures Icon(k1) == Icon(k2) <==> KindOf(k1) == KindOf(k2)
  {
  }

  /** The avatar: the actor's picture, or a placeholder with an initial. */
  datatype Avatar = Picture(src: string) | Placeholder(initial: string)

  /**
   * actorProfilePic || '' decides between the picture and the placeholder; the placeholder
   * shows the upper-cased first character of the actor's name, or 'U' without a name.
   */
  function AvatarOf(n: ToastNotification): (a: Avatar)
    ensures a.Picture? <==> n.actorProfilePic.Some? && n.actorProfilePic.value != ""
    ensures a.Picture? ==> a.src == n.actorProfilePic.value
    ensures a.Placeholder? ==> |a.initial| == 1
    ensures a.Placeholder? && n.actorName.Some? && n.actorName.value != "" ==>
              a.initial == [UpperAscii(n.actorName.value[0])]
    ensures a.Placeholder? && (n.actorName.None? || n.actorName.value == "") ==> a.initial == "U"
  {
    if n.actorProfilePic.Some? && n.actorProfilePic.value != "" then Picture(n.actorProfilePic.value)
    else if n.actorName.Some? && n.actorName.value != "" then Placeholder([UpperAscii(n.actorName.value[0])])
    else Placeholder("U")
  }

  datatype Toast = Toast(icon: string, avatar: Avatar, message: string, link: string)

  /** showToastNotification: nothing for a null notification, otherwise the toast's parts. */
  function ShowToastNotification(n: Option<ToastNotification>, currentUserId: Option<string>): (t: Option<Toast>)
    ensures t.None? <==> n.None?
    ensures t.Some? ==>
              t.value.icon == Icon(n.value.kind) && t.value.avatar == AvatarOf(n.value)
              && t.value.message == FormatNotificationMessage(n.value)
              && t.value.link == GetNotificationLink(n.value, currentUserId)
  {
    if n.None? then None
    else Some(Toast(Icon(n.value.kind), AvatarOf(n.value), FormatNotificationMessage(n.value),
                    GetNotificationLink(n.value, currentUserId)))
  }

  /** The notification a show_notification_popup event from the notification socket carries. */
  function FromPopup(p: WebSocketService.Popup): ToastNotification
  {
    ToastNotification(Some(p.kind), Some(p.actorName), Some(p.actorProfilePic),
                      Num(p.postID), Undefined, Str(p.actorID), Undefined)
  }

  /**
   * For a popup the socket service validated, the toast shows the popup's defaulted name, and a
   * like or comment whose post id defaulted to 0 leads home rather than to a post.
   */
  lemma ToastOfValidatedPopup(n: WebSocketService.IncomingNotification, nowMs: int, nowIso: string,
                              currentUserId: Option<string>)
    ensures var p := WebSocketService.ValidatedPopup(n, nowMs, nowIso);
            var t := FromPopup(p);
            && ShownName(t) == p.actorName
            && (p.kind in {"like", "comment"} ==>
                  GetNotificationLink(t, currentUserId) == (if p.postID != 0 then "/?id=" + IntToString(p.postID) else "/"))
            && (p.kind == "message" && p.actorID == "" ==> GetNotificationLink(t, currentUserId) == "/chat")
  {
    var p := WebSocketService.ValidatedPopup(n, nowMs, nowIso);
    var t := FromPopup(p);
    assert Render(Num(p.postID)) == IntToString(p.postID);
    assert !Truthy(t.post_id) && !Truthy(t.actor_id);
  }
}
