// authentication/chat_handler.go: chat history paging and its in-place reversal, the HTTP send
// handler's guards, HandleChatMessage's delivery, marking messages read with its read receipt,
// and BroadcastMessageNotification. A message's id is its position in Hub.messages, counted
// from 1, as SQLite numbers rows of a table nothing is deleted from.
module ChatHandler {
  import opened Wrappers
  import opened Strings
  import opened Validation
  import opened RealtimeHub
  import opened ChatSocket
  import opened NotificationHandler

  // ---------------------------------------------------------------------------------------
  // Paging

  const DefaultPage: int := 1
  const DefaultLimit: int := 10
  const TwoTo64: int := 0x1_0000_0000_0000_0000

  /** A page or limit query parameter: a positive decimal number, otherwise the default. */
  function PositiveOr(s: string, default: int): (n: int)
    requires default > 0
    ensures n > 0
    ensures s != "" && Atoi(s).Some? && Atoi(s).value > 0 ==> n == Atoi(s).value
    ensures s == "" || Atoi(s).None? || Atoi(s).value <= 0 ==> n == default
  {
    if s != "" && Atoi(s).Some? && Atoi(s).value > 0 then Atoi(s).value else default
  }

  /** Go's int64 arithmetic: the value brought into [MinInt64, MaxInt64] modulo 2^64. */
  function Wrap64(x: int): (r: int)
    ensures MinInt64 <= r <= MaxInt64
    ensures MinInt64 <= x <= MaxInt64 ==> r == x
    ensures (r - x) % TwoTo64 == 0
  {
    (x - MinInt64) % TwoTo64 + MinInt64
  }

  /** offset = (page-1)*limit as Go computes it, in 64-bit arithmetic. */
  function OffsetAsWritten(page: int, limit: int): (off: int)
    requires page > 0 && limit > 0
    ensures MinInt64 <= off <= MaxInt64
    ensures (page - 1) * limit <= MaxInt64 ==> off == (page - 1) * limit
  {
    Wrap64((page - 1) * limit)
  }

  /** Two in-range query parameters whose product wraps round to a negative offset. */
  lemma NegativeOffsetAsWritten()
    ensures var page := PositiveOr(NatToString(0x4000_0000_0000_0001), DefaultPage);
            var limit := PositiveOr(NatToString(2), DefaultLimit);
            page == 0x4000_0000_0000_0001 && limit == 2 && OffsetAsWritten(page, limit) < 0
  {
    AtoiNatToString(0x4000_0000_0000_0001);
    AtoiNatToString(2);
    assert Wrap64(0x8000_0000_0000_0000) == MinInt64;
  }

  /** The offset the query is given: (page-1)*limit without wrap-around, never negative. */
  function Offset(page: int, limit: int): (off: int)
    requires page > 0 && limit > 0
    ensures off >= 0
    ensures off == 0 <==> page == DefaultPage
    ensures off < limit ==> page == DefaultPage
  {
    (page - 1) * limit
  }

  // ---------------------------------------------------------------------------------------
  // History

  /** A scanned row of the history query, or a row whose Scan fails. */
  datatype HistoryRow =
    | BadHistoryRow
    | HistoryRow(id: int, senderId: string, receiverId: string, content: string, sentAt: string, read: bool)

  /** One entry of the JSON history: the client's names for a message's columns. */
  datatype HistoryMessage =
    HistoryMessage(id: int, sender: string, recipient: string, content: string, timestamp: string, read: bool)

  function ToMessage(row: HistoryRow): (m: HistoryMessage)
    requires row.HistoryRow?
    ensures m.id == row.id && m.sender == row.senderId && m.recipient == row.receiverId
    ensures m.content == row.content && m.timestamp == row.sentAt && m.read == row.read
  {
    HistoryMessage(row.id, row.senderId, row.receiverId, row.content, row.sentAt, row.read)
  }

  /** The rows that scan, in query order; a row that fails to scan is skipped. */
  function Scanned(rows: seq<HistoryRow>): (r: seq<HistoryMessage>)
    ensures |r| <= |rows|
    ensures (forall i :: 0 <= i < |rows| ==> rows[i].HistoryRow?) ==>
              |r| == |rows| && forall i :: 0 <= i < |rows| ==> r[i] == ToMessage(rows[i])
    ensures (forall i :: 0 <= i < |rows| ==> rows[i].BadHistoryRow?) ==> r == []
  {
    if rows == [] then []
    else
      var init := Scanned(rows[..|rows| - 1]);
      var last := rows[|rows| - 1];
      if last.BadHistoryRow? then init else init + [ToMessage(last)]
  }

  /** The scanning loop of GetChatHistoryHandler. */
  method ScanHistory(rows: seq<HistoryRow>) returns (messages: seq<HistoryMessage>)
    ensures messages == Scanned(rows)
  {
    messages := [];
    var i := 0;
    while i < |rows|
      invariant 0 <= i <= |rows|
      invariant messages == Scanned(rows[..i])
    {
      assert rows[..i + 1][..i] == rows[..i];
      if rows[i].HistoryRow? {
        messages := messages + [ToMessage(rows[i])];
      }
      i := i + 1;
    }
    assert rows[..i] == rows;
  }

  /** The sequence back to front. */
  function Reversed<T>(s: seq<T>): (r: seq<T>)
    ensures |r| == |s|
    ensures forall i :: 0 <= i < |s| ==> r[i] == s[|s| - 1 - i]
  {
    if s == [] then [] else Reversed(s[1..]) + [s[0]]
  }

  /** Reversing twice gives the sequence back. */
  lemma ReversedTwice<T>(s: seq<T>)
    ensures Reversed(Reversed(s)) == s
  {
    var r := Reversed(s);
    assert forall i :: 0 <= i < |s| ==> Reversed(r)[i] == r[|s| - 1 - i] == s[i];
  }

  /** Reversal turns the first element into the last and the last into the first. */
  lemma ReversedEnds<T>(s: seq<T>)
    requires s != []
    ensures Reversed(s)[0] == s[|s| - 1] && Reversed(s)[|s| - 1] == s[0]
  {
  }

  /** Two indices moving towards each other swap the elements they meet. */
  method ReverseInPlace<T>(a: array<T>)
    modifies a
    ensures a[..] == Reversed(old(a[..]))
  {
    var i, j := 0, a.Length - 1;
    while i < j
      invariant 0 <= i <= j + 1 <= a.Length
      invariant j == a.Length - 1 - i
      invariant forall k :: 0 <= k < i ==> a[k] == old(a[a.Length - 1 - k]) && a[a.Length - 1 - k] == old(a[k])
      invariant forall k :: i <= k <= j ==> a[k] == old(a[k])
    {
      a[i], a[j] := a[j], a[i];
      i, j := i + 1, j - 1;
    }
  }

  /**
   * GetChatHistoryHandler: 400 without both user ids, 500 when the query fails, otherwise the
   * scanned page in reverse query order (the query runs newest first, so the page comes out
   * oldest first), [] rather than null when nothing scans. query(limit, offset) is the page
   * the SELECT returns.
   */
  method GetChatHistory(user1: string, user2: string, pageStr: string, limitStr: string,
                        query: (int, int) -> Option<seq<HistoryRow>>)
    returns (status: int, messages: seq<HistoryMessage>)
    ensures status == 400 <==> user1 == "" || user2 == ""
    ensures var limit := PositiveOr(limitStr, DefaultLimit);
            var offset := Offset(PositiveOr(pageStr, DefaultPage), limit);
            (status == 500 <==> user1 != "" && user2 != "" && query(limit, offset).None?)
            && (status == 200 ==> query(limit, offset).Some? && messages == Reversed(Scanned(query(limit, offset).value)))
    ensures status in {200, 400, 500}
    ensures status != 200 ==> messages == []
  {
    var page := PositiveOr(pageStr, DefaultPage);
    var limit := PositiveOr(limitStr, DefaultLimit);
    var offset := Offset(page, limit);
    if user1 == "" || user2 == "" {
      return 400, [];
    }
    var rows := query(limit, offset);
    if rows.None? {
      return 500, [];
    }
    messages := ScanHistory(rows.value);
    status := 200;
    if messages == [] {
      return;
    }
    var a := new HistoryMessage[|messages|](k requires 0 <= k < |messages| => messages[k]);
    assert a[..] == messages;
    ReverseInPlace(a);
    messages := a[..];
  }

  // ---------------------------------------------------------------------------------------
  // Sending over HTTP

  datatype SendRequest = SendRequest(senderId: string, receiverId: string, content: string, timestamp: string)

  /** The "message" object of the send response. */
  datatype SentMessage = SentMessage(id: int, sender: string, recipient: string, content: string, timestamp: string)

  /** The statements whose failure the chat handlers report: the INSERT and LastInsertId. */
  datatype InsertFault = InsertFails | LastIdFails

  const MaxMessageLength: int := 5000

  /**
   * The guards SendMessageHandler applies before touching the database: 405 for anything but
   * POST, 400 for a body that does not decode, an empty field, a sender or receiver id that
   * is not a UUID, or content ValidateContent refuses at 5000 characters.
   */
  function SendRejection(verb: string, body: Option<SendRequest>): (r: Option<int>)
    ensures r == Some(405) <==> verb != "POST"
    ensures r.Some? ==> r.value in {400, 405}
    ensures r.None? ==>
              verb == "POST" && body.Some? && body.value.content != ""
              && UuidShape(body.value.senderId) && UuidShape(body.value.receiverId)
              && TrimSpace(body.value.content) != [] && Utf8Len(TrimSpace(body.value.content)) <= MaxMessageLength
    ensures (verb == "POST" && body.Some? && UuidShape(body.value.senderId) && UuidShape(body.value.receiverId)
             && ValidateContent(body.value.content, MaxMessageLength).None?) ==> r.None?
  {
    if verb != "POST" then Some(405)
    else if body.None? then Some(400)
    else
      var b := body.value;
      if b.senderId == "" || b.receiverId == "" || b.content == "" then Some(400)
      else if ValidateUserID(b.senderId).Some? then Some(400)
      else if ValidateUserID(b.receiverId).Some? then Some(400)
      else if ValidateContent(b.content, MaxMessageLength).Some? then Some(400)
      else
        TrimSpaceEmpty(b.content);
        assert ValidateContent(b.content, MaxMessageLength) != Some(ContentTooLong);
        None
  }

  /** The send time: the request's timestamp when it parses as RFC 3339, else now. */
  function SentAt(timestamp: string, now: int, parseRfc3339: string -> Option<int>): (t: int)
    ensures timestamp != "" && parseRfc3339(timestamp).Some? ==> t == parseRfc3339(timestamp).value
    ensures timestamp == "" || parseRfc3339(timestamp).None? ==> t == now
  {
    if timestamp != "" && parseRfc3339(timestamp).Some? then parseRfc3339(timestamp).value else now
  }

  /** BroadcastNewMessage, as far as the send handler's contract depends on it. */
  method AnnounceNewMessage(h: Hub, senderID: string, receiverID: string, now: int, hubFaults: set<HubFault>)
    requires h.Valid()
    modifies h
    ensures h.Valid()
    ensures h.clients == old(h.clients) && h.chatClients == old(h.chatClients) && h.failed == old(h.failed)
    ensures h.users == old(h.users) && h.byNickname == old(h.byNickname) && h.messages == old(h.messages)
    ensures Grows(old(h.outbox), h.outbox)
    ensures NotificationInsertFails !in hubFaults ==>
              h.notifications == old(h.notifications)[old(h.nextNotificationId) :=
                                   NotificationRecord(receiverID, senderID, "message", Some(0), now, false)]
    ensures NotificationInsertFails in hubFaults ==> h.notifications == old(h.notifications)
    ensures h.outbox == NewMessageOutbox(old(h.outbox), h.clients, h.failed, h.users, h.byNickname, h.notifications,
                                         NoticeId(hubFaults, old(h.nextNotificationId)), senderID, receiverID, hubFaults)
  {
    var _ := h.BroadcastNewMessage(senderID, receiverID, now, hubFaults);
  }

  /** The id the message notice carries: the inserted row's, or 0 when the insert fails. */
  function NoticeId(hubFaults: set<HubFault>, nextId: int): int
  {
    if NotificationInsertFails in hubFaults then 0 else nextId
  }

  /**
   * The part of SendMessageHandler after validation: the INSERT, the new row's id, the
   * response and the broadcast.
   */
  method StoreMessage(h: Hub, b: SendRequest, now: int,
                      parseRfc3339: string -> Option<int>, formatDb: int -> string, formatRfc3339: int -> string,
                      faults: set<InsertFault>, hubFaults: set<HubFault>)
    returns (status: int, response: Option<SentMessage>)
    requires h.Valid()
    modifies h
    ensures h.Valid()
    ensures h.clients == old(h.clients) && h.chatClients == old(h.chatClients) && h.failed == old(h.failed)
    ensures h.users == old(h.users) && h.byNickname == old(h.byNickname)
    ensures InsertFails in faults ==>
              status == 500 && response.None?
              && h.messages == old(h.messages) && h.outbox == old(h.outbox) && h.notifications == old(h.notifications)
    ensures InsertFails !in faults ==>
              h.messages == old(h.messages) + [MessageRecord(b.senderId, b.receiverId, SanitizeString(b.content),
                                                             formatDb(SentAt(b.timestamp, now, parseRfc3339)), false)]
    ensures InsertFails !in faults && LastIdFails in faults ==>
              status == 500 && response.None? && h.outbox == old(h.outbox) && h.notifications == old(h.notifications)
    ensures faults == {} ==>
              status == 200
              && response == Some(SentMessage(|h.messages|, b.senderId, b.receiverId, b.content,
                                              formatRfc3339(SentAt(b.timestamp, now, parseRfc3339))))
              && Grows(old(h.outbox), h.outbox)
              && (NotificationInsertFails !in hubFaults ==>
                    h.notifications == old(h.notifications)[old(h.nextNotificationId) :=
                                         NotificationRecord(b.receiverId, b.senderId, "message", Some(0), now, false)])
              && (NotificationInsertFails in hubFaults ==> h.notifications == old(h.notifications))
              && h.outbox == NewMessageOutbox(old(h.outbox), h.clients, h.failed, h.users, h.byNickname, h.notifications,
                                              NoticeId(hubFaults, old(h.nextNotificationId)), b.senderId, b.receiverId,
                                              hubFaults)
  {
    var sentAt := SentAt(b.timestamp, now, parseRfc3339);
    var sanitized := SanitizeString(b.content);
    if InsertFails in faults {
      return 500, None;
    }
    h.messages := h.messages + [MessageRecord(b.senderId, b.receiverId, sanitized, formatDb(sentAt), false)];
    if LastIdFails in faults {
      return 500, None;
    }
    var messageID := |h.messages|;
    AnnounceNewMessage(h, b.senderId, b.receiverId, now, hubFaults);
    status, response := 200, Some(SentMessage(messageID, b.senderId, b.receiverId, b.content, formatRfc3339(sentAt)));
  }

  /**
   * SendMessageHandler. The stored row holds the sanitised content and the send time in the
   * database layout; the response echoes the content as sent and the time in RFC 3339.
   * BroadcastNewMessage then runs (sequentially here, where Go starts a goroutine).
   */
  method SendMessage(h: Hub, verb: string, body: Option<SendRequest>, now: int,
                     parseRfc3339: string -> Option<int>, formatDb: int -> string, formatRfc3339: int -> string,
                     faults: set<InsertFault>, hubFaults: set<HubFault>)
    returns (status: int, response: Option<SentMessage>)
    requires h.Valid()
    modifies h
    ensures h.Valid()
    ensures h.clients == old(h.clients) && h.chatClients == old(h.chatClients) && h.failed == old(h.failed)
    ensures h.users == old(h.users) && h.byNickname == old(h.byNickname)
    ensures SendRejection(verb, body).Some? ==>
              status == SendRejection(verb, body).value && response.None?
              && h.messages == old(h.messages) && h.outbox == old(h.outbox) && h.notifications == old(h.notifications)
    ensures SendRejection(verb, body).None? && InsertFails in faults ==>
              status == 500 && response.None?
              && h.messages == old(h.messages) && h.outbox == old(h.outbox) && h.notifications == old(h.notifications)
    ensures SendRejection(verb, body).None? && InsertFails !in faults ==>
              var b := body.value;
              h.messages == old(h.messages) + [MessageRecord(b.senderId, b.receiverId, SanitizeString(b.content),
                                                             formatDb(SentAt(b.timestamp, now, parseRfc3339)), false)]
    ensures SendRejection(verb, body).None? && InsertFails !in faults && LastIdFails in faults ==>
              status == 500 && response.None? && h.outbox == old(h.outbox) && h.notifications == old(h.notifications)
    ensures SendRejection(verb, body).None? && faults == {} ==>
              var b := body.value;
              status == 200
              && response == Some(SentMessage(|h.messages|, b.senderId, b.receiverId, b.content,
                                              formatRfc3339(SentAt(b.timestamp, now, parseRfc3339))))
              && Grows(old(h.outbox), h.outbox)
              && (NotificationInsertFails !in hubFaults ==>
                    h.notifications == old(h.notifications)[old(h.nextNotificationId) :=
                                         NotificationRecord(b.receiverId, b.senderId, "message", Some(0), now, false)])
              && (NotificationInsertFails in hubFaults ==> h.notifications == old(h.notifications))
              && h.outbox == NewMessageOutbox(old(h.outbox), h.clients, h.failed, h.users, h.byNickname, h.notifications,
                                              NoticeId(hubFaults, old(h.nextNotificationId)), b.senderId, b.receiverId,
                                              hubFaults)
  {
    var rejection := SendRejection(verb, body);
    if rejection.Some? {
      return rejection.value, None;
    }
    status, response := StoreMessage(h, body.value, now, parseRfc3339, formatDb, formatRfc3339, faults, hubFaults);
  }

  // ---------------------------------------------------------------------------------------
  // Sending over the socket

  /** The fields HandleChatMessage reads from a socket message. */
  datatype IncomingChat = IncomingChat(sender: string, recipient: string, content: string, timestamp: string)

  /**
   * The "message" object with string sender, recipient and content, or nothing; the
   * timestamp is the message's own when it is a non-empty string, otherwise now.
   */
  function ParseChatMessage(message: map<string, Json>, now: string): (r: Option<IncomingChat>)
    requires now != ""
    ensures r.None? <==>
              ObjectField(message, "message").None?
              || StringField(ObjectField(message, "message").value, "sender").None?
              || StringField(ObjectField(message, "message").value, "recipient").None?
              || StringField(ObjectField(message, "message").value, "content").None?
    ensures r.Some? ==>
              var m := ObjectField(message, "message").value;
              Some(r.value.sender) == StringField(m, "sender") && Some(r.value.recipient) == StringField(m, "recipient")
              && Some(r.value.content) == StringField(m, "content")
              && r.value.timestamp != ""
              && (r.value.timestamp == now <== StringField(m, "timestamp") in {None, Some("")})
              && (StringField(m, "timestamp") !in {None, Some("")} ==> Some(r.value.timestamp) == StringField(m, "timestamp"))
  {
    var data := ObjectField(message, "message");
    if data.None? then None
    else
      var sender := StringField(data.value, "sender");
      var recipient := StringField(data.value, "recipient");
      var content := StringField(data.value, "content");
      if sender.None? || recipient.None? || content.None? then None
      else
        var ts := StringField(data.value, "timestamp");
        var timestamp := if ts.Some? && ts.value != "" then ts.value else now;
        Some(IncomingChat(sender.value, recipient.value, content.value, timestamp))
  }

  /** The connection registered for a user, as a set of at most one. */
  function Registered(clients: map<string, ConnId>, user: string): (r: set<ConnId>)
    ensures user in clients ==> r == {clients[user]}
    ensures user !in clients ==> r == {}
  {
    if user in clients then {clients[user]} else {}
  }

  /** A single write is a delivery to that one connection. */
  lemma SendIsDeliver(o: map<ConnId, seq<Event>>, c: ConnId, failed: set<ConnId>, e: Event)
    requires c in o
    ensures c !in failed ==> Send(o, c, e) == Deliver(o, {c}, failed, e)
    ensures c in failed ==> o == Deliver(o, {c}, failed, e)
  {
    if c !in failed {
      assert forall d :: d in o ==> Send(o, c, e)[d] == Deliver(o, {c}, failed, e)[d];
    } else {
      assert forall d :: d in o ==> o[d] == Deliver(o, {c}, failed, e)[d];
    }
  }

  /** What BroadcastMessageNotification writes: refresh_users and then the users list to everyone. */
  function NotifyAll(o: map<ConnId, seq<Event>>, clients: map<string, ConnId>, failed: set<ConnId>,
                     sender: string, recipient: string, users: map<string, UserRecord>, byNickname: seq<string>,
                     hubFaults: set<HubFault>): map<ConnId, seq<Event>>
  {
    DeliverAll(o, clients.Values, failed, [RefreshUsers(sender, recipient)] + ListEvents(hubFaults, users, byNickname))
  }

  /**
   * What NotifyAll leaves in one outbox: a registered connection that does not fail gets
   * refresh_users and then the users list (when the query runs); any other gets nothing.
   */
  lemma NotifyAllSent(o: map<ConnId, seq<Event>>, clients: map<string, ConnId>, failed: set<ConnId>,
                      sender: string, recipient: string, users: map<string, UserRecord>, byNickname: seq<string>,
                      hubFaults: set<HubFault>, c: ConnId)
    requires c in o
    ensures var r := NotifyAll(o, clients, failed, sender, recipient, users, byNickname, hubFaults);
            c in r &&
            (c in clients.Values && c !in failed ==>
               r[c] == o[c] + [RefreshUsers(sender, recipient)] + ListEvents(hubFaults, users, byNickname)) &&
            (c !in clients.Values || c in failed ==> r[c] == o[c])
  {
    var events := [RefreshUsers(sender, recipient)] + ListEvents(hubFaults, users, byNickname);
    var r := DeliverAll(o, clients.Values, failed, events);
    DeliverAllSent(o, clients.Values, failed, events, c);
    assert r[c] == o[c] + (if c in clients.Values && c !in failed then events else []);
    assert o[c] + events == o[c] + [RefreshUsers(sender, recipient)] + ListEvents(hubFaults, users, byNickname);
  }

  /** BroadcastMessageNotification: refresh_users to every registered connection, then the users list. */
  method BroadcastMessageNotification(h: Hub, senderID: string, receiverID: string, hubFaults: set<HubFault>)
    requires h.Valid()
    modifies h
    ensures h.Valid()
    ensures h.outbox == NotifyAll(old(h.outbox), h.clients, h.failed, senderID, receiverID, h.users, h.byNickname, hubFaults)
    ensures h.clients == old(h.clients) && h.chatClients == old(h.chatClients) && h.failed == old(h.failed)
    ensures h.nextConn == old(h.nextConn) && h.users == old(h.users) && h.byNickname == old(h.byNickname)
    ensures h.notifications == old(h.notifications) && h.nextNotificationId == old(h.nextNotificationId)
    ensures h.messages == old(h.messages)
  {
    h.BroadcastWithList(RefreshUsers(senderID, receiverID), hubFaults);
  }

  /**
   * HandleChatMessage on a socket conn: nothing for a malformed message or a failed INSERT;
   * once stored, nothing more if LastInsertId fails; otherwise the stored message goes back
   * to conn, to the recipient's registered connection if there is one, and then
   * BroadcastMessageNotification runs. The stored content is not sanitised.
   */
  method HandleChatMessage(h: Hub, conn: ConnId, message: map<string, Json>, now: string,
                           faults: set<InsertFault>, hubFaults: set<HubFault>)
    requires h.Valid() && conn in h.outbox && now != ""
    modifies h
    ensures h.Valid()
    ensures h.clients == old(h.clients) && h.chatClients == old(h.chatClients) && h.failed == old(h.failed)
    ensures h.nextConn == old(h.nextConn) && h.users == old(h.users) && h.byNickname == old(h.byNickname)
    ensures h.notifications == old(h.notifications) && h.nextNotificationId == old(h.nextNotificationId)
    ensures var p := ParseChatMessage(message, now);
            p.None? || InsertFails in faults ==> h.messages == old(h.messages) && h.outbox == old(h.outbox)
    ensures var p := ParseChatMessage(message, now);
            p.Some? && InsertFails !in faults ==>
              h.messages == old(h.messages) + [MessageRecord(p.value.sender, p.value.recipient, p.value.content, p.value.timestamp, false)]
    ensures var p := ParseChatMessage(message, now);
            p.Some? && InsertFails !in faults && LastIdFails in faults ==> h.outbox == old(h.outbox)
    ensures var p := ParseChatMessage(message, now);
            p.Some? && faults == {} ==>
              var m := p.value;
              var e := ChatMessage(|h.messages|, m.sender, m.recipient, m.content, m.timestamp, false);
              var echoed := Deliver(old(h.outbox), {conn}, h.failed, e);
              var forwarded := Deliver(echoed, Registered(h.clients, m.recipient), h.failed, e);
              h.outbox == NotifyAll(forwarded, h.clients, h.failed, m.sender, m.recipient, h.users, h.byNickname, hubFaults)
  {
    var p := ParseChatMessage(message, now);
    if p.None? {
      return;
    }
    StoreChatMessage(h, conn, p.value, faults, hubFaults);
  }

  /** HandleChatMessage once the message has parsed: the INSERT, the echo, the forward, the notification. */
  method StoreChatMessage(h: Hub, conn: ConnId, m: IncomingChat, faults: set<InsertFault>, hubFaults: set<HubFault>)
    requires h.Valid() && conn in h.outbox
    modifies h
    ensures h.Valid()
    ensures h.clients == old(h.clients) && h.chatClients == old(h.chatClients) && h.failed == old(h.failed)
    ensures h.nextConn == old(h.nextConn) && h.users == old(h.users) && h.byNickname == old(h.byNickname)
    ensures h.notifications == old(h.notifications) && h.nextNotificationId == old(h.nextNotificationId)
    ensures InsertFails in faults ==> h.messages == old(h.messages) && h.outbox == old(h.outbox)
    ensures InsertFails !in faults ==>
              h.messages == old(h.messages) + [MessageRecord(m.sender, m.recipient, m.content, m.timestamp, false)]
    ensures InsertFails !in faults && LastIdFails in faults ==> h.outbox == old(h.outbox)
    ensures faults == {} ==>
              var e := ChatMessage(|h.messages|, m.sender, m.recipient, m.content, m.timestamp, false);
              var echoed := Deliver(old(h.outbox), {conn}, h.failed, e);
              var forwarded := Deliver(echoed, Registered(h.clients, m.recipient), h.failed, e);
              h.outbox == NotifyAll(forwarded, h.clients, h.failed, m.sender, m.recipient, h.users, h.byNickname, hubFaults)
  {
    if InsertFails in faults {
      return;
    }
    h.messages := h.messages + [MessageRecord(m.sender, m.recipient, m.content, m.timestamp, false)];
    if LastIdFails in faults {
      return;
    }
    var e := ChatMessage(|h.messages|, m.sender, m.recipient, m.content, m.timestamp, false);
    SendIsDeliver(h.outbox, conn, h.failed, e);
    var _ := h.WriteJson(conn, e);
    var echoed := h.outbox;
    if m.recipient in h.clients {
      SendIsDeliver(h.outbox, h.clients[m.recipient], h.failed, e);
      var _ := h.WriteJson(h.clients[m.recipient], e);
    } else {
      assert Deliver(echoed, {}, h.failed, e) == echoed;
    }
    BroadcastMessageNotification(h, m.sender, m.recipient, hubFaults);
  }

  // ---------------------------------------------------------------------------------------
  // Read receipts

  datatype ReadRequest = ReadRequest(receiverId: string, senderId: string)

  /** The UPDATE and RowsAffected of MarkMessagesAsReadHandler. */
  datatype ReadFault = UpdateFails | RowsAffectedFails

  predicate UnreadBetween(m: MessageRecord, senderID: string, receiverID: string)
  {
    m.senderId == senderID && m.receiverId == receiverID && !m.read
  }

  /** The number of unread messages from senderID to receiverID. */
  function UnreadFrom(messages: seq<MessageRecord>, senderID: string, receiverID: string): (n: nat)
    ensures n <= |messages|
    ensures n == 0 <==> forall i :: 0 <= i < |messages| ==> !UnreadBetween(messages[i], senderID, receiverID)
  {
    if messages == [] then 0
    else
      var rest := UnreadFrom(messages[1..], senderID, receiverID);
      assert forall i :: 1 <= i < |messages| ==> messages[i] == messages[1..][i - 1];
      if UnreadBetween(messages[0], senderID, receiverID) then rest + 1 else rest
  }

  /** UPDATE ... SET read = 1 WHERE sender_id = ? AND receiver_id = ? AND read = 0. */
  function MarkedRead(messages: seq<MessageRecord>, senderID: string, receiverID: string): (r: seq<MessageRecord>)
    ensures |r| == |messages|
    ensures forall i :: 0 <= i < |messages| ==>
              r[i] == if UnreadBetween(messages[i], senderID, receiverID) then messages[i].(read := true) else messages[i]
  {
    if messages == [] then []
    else
      var head := if UnreadBetween(messages[0], senderID, receiverID) then messages[0].(read := true) else messages[0];
      [head] + MarkedRead(messages[1..], senderID, receiverID)
  }

  /** After the update no unread message from the sender to the reader is left. */
  lemma MarkedReadClears(messages: seq<MessageRecord>, senderID: string, receiverID: string)
    ensures UnreadFrom(MarkedRead(messages, senderID, receiverID), senderID, receiverID) == 0
  {
  }

  /** Other conversations keep their unread counts. */
  lemma {:induction false} MarkedReadOthers(messages: seq<MessageRecord>, senderID: string, receiverID: string,
                                            s: string, r: string)
    requires (s, r) != (senderID, receiverID)
    ensures UnreadFrom(MarkedRead(messages, senderID, receiverID), s, r) == UnreadFrom(messages, s, r)
  {
    if messages != [] {
      var marked := MarkedRead(messages, senderID, receiverID);
      MarkedReadOthers(messages[1..], senderID, receiverID, s, r);
      assert marked[1..] == MarkedRead(messages[1..], senderID, receiverID);
    }
  }

  /** Marking read a second time changes nothing. */
  lemma MarkedReadIdempotent(messages: seq<MessageRecord>, senderID: string, receiverID: string)
    ensures MarkedRead(MarkedRead(messages, senderID, receiverID), senderID, receiverID)
            == MarkedRead(messages, senderID, receiverID)
  {
  }

  /**
   * MarkMessagesAsReadHandler: 405, 400 for an undecodable body or a missing id, 500 when the
   * UPDATE fails, otherwise 200 with the number of rows marked (0 when RowsAffected fails);
   * a message_read event goes to the original sender's registered connection only when that
   * number is positive.
   */
  method MarkMessagesAsRead(h: Hub, verb: string, body: Option<ReadRequest>, faults: set<ReadFault>)
    returns (status: int, rowsAffected: int)
    requires h.Valid()
    modifies h
    ensures h.Valid()
    ensures h.clients == old(h.clients) && h.chatClients == old(h.chatClients) && h.failed == old(h.failed)
    ensures h.nextConn == old(h.nextConn) && h.users == old(h.users) && h.byNickname == old(h.byNickname)
    ensures h.notifications == old(h.notifications) && h.nextNotificationId == old(h.nextNotificationId)
    ensures status == 405 <==> verb != "POST"
    ensures status == 400 <==> verb == "POST" && (body.None? || body.value.receiverId == "" || body.value.senderId == "")
    ensures status == 500 <==> verb == "POST" && body.Some? && body.value.receiverId != "" && body.value.senderId != ""
                                && UpdateFails in faults
    ensures status in {200, 400, 405, 500}
    ensures status != 200 ==> rowsAffected == 0 && h.messages == old(h.messages) && h.outbox == old(h.outbox)
    ensures status == 200 ==>
              var b := body.value;
              h.messages == MarkedRead(old(h.messages), b.senderId, b.receiverId)
              && rowsAffected == (if RowsAffectedFails in faults then 0 else UnreadFrom(old(h.messages), b.senderId, b.receiverId))
              && h.outbox == (if rowsAffected > 0
                              then Deliver(old(h.outbox), Registered(h.clients, b.senderId), h.failed, MessageRead(b.senderId, b.receiverId))
                              else old(h.outbox))
  {
    rowsAffected := 0;
    if verb != "POST" {
      return 405, 0;
    }
    if body.None? || body.value.receiverId == "" || body.value.senderId == "" {
      return 400, 0;
    }
    var b := body.value;
    if UpdateFails in faults {
      return 500, 0;
    }
    var count := UnreadFrom(h.messages, b.senderId, b.receiverId);
    h.messages := MarkedRead(h.messages, b.senderId, b.receiverId);
    if RowsAffectedFails !in faults {
      rowsAffected := count;
    }
    if rowsAffected > 0 {
      var e := MessageRead(b.senderId, b.receiverId);
      if b.senderId in h.clients {
        SendIsDeliver(h.outbox, h.clients[b.senderId], h.failed, e);
        var _ := h.WriteJson(h.clients[b.senderId], e);
      } else {
        assert Deliver(h.outbox, {}, h.failed, e) == h.outbox;
      }
    }
    status := 200;
  }
}
