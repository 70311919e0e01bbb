// authentication/chat_websocket.go: the chatClients registry keyed by "user:partner", the read
// loop's classification of chat frames, and forwardMessageToUser. A frame is its raw text
// together with what json.Unmarshal makes of it; decoding JSON is not modelled.
module ChatSocket {
  import opened Wrappers
  import opened RealtimeHub
  import opened NotificationHandler

  /** A decoded JSON value. */
  datatype Json =
    | JNull
    | JBool(b: bool)
    | JNumber(n: int)
    | JString(s: string)
    | JArray(items: seq<Json>)
    | JObject(fields: map<string, Json>)

  /**
   * A frame read from a chat socket: its bytes and, when they decode to a JSON object, that
   * object (json.Unmarshal into a map fails on anything else).
   */
  datatype Frame = Frame(raw: string, parsed: Option<map<string, Json>>)

  /** The string under key, when there is one and it is a string. */
  function StringField(obj: map<string, Json>, key: string): (r: Option<string>)
    ensures r.Some? <==> key in obj && obj[key].JString?
    ensures r.Some? ==> obj[key] == JString(r.value)
  {
    if key in obj && obj[key].JString? then Some(obj[key].s) else None
  }

  /** The object under key, when there is one and it is an object. */
  function ObjectField(obj: map<string, Json>, key: string): (r: Option<map<string, Json>>)
    ensures r.Some? <==> key in obj && obj[key].JObject?
    ensures r.Some? ==> obj[key] == JObject(r.value)
  {
    if key in obj && obj[key].JObject? then Some(obj[key].fields) else None
  }

  /**
   * The read loop asserts that a "message" frame's message object carries string sender,
   * recipient, content and timestamp fields and panics otherwise; frames are taken to meet it.
   */
  predicate MessageFieldsPresent(frame: Frame)
  {
    frame.parsed.Some?
    && StringField(frame.parsed.value, "type") == Some("message")
    && ObjectField(frame.parsed.value, "message").Some?
    ==> var m := ObjectField(frame.parsed.value, "message").value;
        StringField(m, "sender").Some? && StringField(m, "recipient").Some?
        && StringField(m, "content").Some? && StringField(m, "timestamp").Some?
  }

  /** What the read loop does with a frame. */
  datatype FrameAction =
    | NoAction
    | SaveAndForward(sender: string, recipient: string, content: string, timestamp: string)
    | ForwardTyping(recipient: string)

  /**
   * The switch of HandleChatWebSocket: frames that do not decode, or lack a string "type",
   * are skipped; a "message" frame with a message object is saved and forwarded; a typing or
   * stop_typing frame is forwarded when its "recipient" is a string; anything else is ignored.
   */
  function Classify(frame: Frame): (a: FrameAction)
    requires MessageFieldsPresent(frame)
    ensures frame.parsed.None? ==> a == NoAction
    ensures frame.parsed.Some? && StringField(frame.parsed.value, "type").None? ==> a == NoAction
    ensures a.SaveAndForward? <==>
              frame.parsed.Some? && StringField(frame.parsed.value, "type") == Some("message")
              && ObjectField(frame.parsed.value, "message").Some?
    ensures a.ForwardTyping? <==>
              frame.parsed.Some? && StringField(frame.parsed.value, "type") in {Some("typing"), Some("stop_typing")}
              && StringField(frame.parsed.value, "recipient").Some?
    ensures a.ForwardTyping? ==> a.recipient == StringField(frame.parsed.value, "recipient").value
    ensures a.SaveAndForward? ==>
              var m := ObjectField(frame.parsed.value, "message").value;
              Some(a.sender) == StringField(m, "sender") && Some(a.recipient) == StringField(m, "recipient")
              && Some(a.content) == StringField(m, "content") && Some(a.timestamp) == StringField(m, "timestamp")
  {
    if frame.parsed.None? then NoAction
    else
      var msg := frame.parsed.value;
      match StringField(msg, "type")
      case None => NoAction
      case Some(t) =>
        if t == "message" then
          match ObjectField(msg, "message")
          case None => NoAction
          case Some(m) =>
            SaveAndForward(StringField(m, "sender").value, StringField(m, "recipient").value,
                           StringField(m, "content").value, StringField(m, "timestamp").value)
        else if t == "typing" || t == "stop_typing" then
          match StringField(msg, "recipient")
          case None => NoAction
          case Some(r) => ForwardTyping(r)
        else NoAction
  }

  /**
   * The sender forwardMessageToUser reads back from the frame: message.sender for a
   * "message" frame, the top-level sender for typing frames, "" when there is none.
   */
  function SenderOf(frame: Frame): string
  {
    if frame.parsed.None? then ""
    else
      var msg := frame.parsed.value;
      match StringField(msg, "type")
      case None => ""
      case Some(t) =>
        if t == "message" then
          match ObjectField(msg, "message")
          case None => ""
          case Some(m) => if StringField(m, "sender").Some? then StringField(m, "sender").value else ""
        else if t == "typing" || t == "stop_typing" then
          if StringField(msg, "sender").Some? then StringField(msg, "sender").value else ""
        else ""
  }

  /** The sender forwarding reads back from a saved message is the sender that was saved. */
  lemma SavedFrameSender(frame: Frame)
    requires MessageFieldsPresent(frame) && Classify(frame).SaveAndForward?
    ensures SenderOf(frame) == Classify(frame).sender
  {
  }

  /** A typing frame is forwarded under its top-level sender, which may be missing. */
  lemma TypingFrameSender(frame: Frame)
    requires MessageFieldsPresent(frame) && Classify(frame).ForwardTyping?
    ensures SenderOf(frame) == (var s := StringField(frame.parsed.value, "sender"); if s.Some? then s.value else "")
  {
  }

  /** The registry key of a chat window: the user, ":", the partner. */
  function ChatKey(user: string, partner: string): (key: string)
    ensures |key| == |user| + 1 + |partner| && key[|user|] == ':'
  {
    user + ":" + partner
  }

  /**
   * Ids without ':' (such as UUIDs) give distinct keys for distinct windows, so a frame
   * reaches only the window of that user with that partner.
   */
  lemma ChatKeyInjective(u1: string, p1: string, u2: string, p2: string)
    requires ':' !in u1 && ':' !in u2
    ensures ChatKey(u1, p1) == ChatKey(u2, p2) <==> u1 == u2 && p1 == p2
  {
    var k1, k2 := ChatKey(u1, p1), ChatKey(u2, p2);
    if k1 == k2 {
      if |u1| < |u2| {
        assert false;
      } else if |u2| < |u1| {
        assert false;
      }
      assert u1 == k1[..|u1|] && u2 == k2[..|u2|];
      assert p1 == k1[|u1| + 1..] && p2 == k2[|u2| + 1..];
    }
  }

  /**
   * HandleChatWebSocket up to its read loop: 400 when user1 or user2 is empty, before any
   * registration; otherwise a new connection is registered under user1:user2, replacing any
   * earlier one without closing it.
   */
  method ChatConnect(h: Hub, user1: string, user2: string) returns (status: int, conn: Option<ConnId>)
    requires h.Valid()
    modifies h
    ensures h.Valid()
    ensures status == 400 <==> user1 == "" || user2 == ""
    ensures status == 400 ==> conn.None? && h.chatClients == old(h.chatClients) && h.outbox == old(h.outbox)
    ensures status != 400 ==>
              status == 101 && conn == Some(old(h.nextConn)) && old(h.nextConn) !in old(h.outbox)
              && h.chatClients == old(h.chatClients)[ChatKey(user1, user2) := old(h.nextConn)]
              && h.outbox == old(h.outbox)[old(h.nextConn) := []]
    ensures h.clients == old(h.clients) && h.failed == old(h.failed) && h.users == old(h.users)
    ensures h.notifications == old(h.notifications) && h.messages == old(h.messages)
  {
    if user1 == "" || user2 == "" {
      return 400, None;
    }
    var c := h.nextConn;
    h.nextConn := h.nextConn + 1;
    h.outbox := h.outbox[c := []];
    h.chatClients := h.chatClients[ChatKey(user1, user2) := c];
    return 101, Some(c);
  }

  /** The deferred clean-up: the key is deleted and the connection closed. */
  method ChatDisconnect(h: Hub, user1: string, user2: string, conn: ConnId)
    requires h.Valid()
    modifies h
    ensures h.Valid()
    ensures h.chatClients == old(h.chatClients) - {ChatKey(user1, user2)}
    ensures h.failed == old(h.failed) + {conn}
    ensures h.clients == old(h.clients) && h.outbox == old(h.outbox) && h.users == old(h.users)
    ensures h.notifications == old(h.notifications) && h.messages == old(h.messages)
  {
    h.chatClients := h.chatClients - {ChatKey(user1, user2)};
    h.failed := h.failed + {conn};
  }

  /**
   * forwardMessageToUser: with no sender nothing is sent and nothing broadcast. Otherwise the
   * raw frame goes to the recipient's window with the sender, recipient:sender; a refresh
   * broadcast follows a successful write, and also follows when no such window is open, but
   * not a failed write.
   */
  method ForwardMessageToUser(h: Hub, recipientID: string, frame: Frame, now: int, faults: set<HubFault>)
    returns (forwarded: bool, broadcast: bool)
    requires h.Valid()
    modifies h
    ensures h.Valid()
    ensures var sender := SenderOf(frame);
            var key := ChatKey(recipientID, sender);
            (forwarded <==> sender != "" && key in h.chatClients && h.chatClients[key] !in h.failed)
            && (broadcast <==> sender != "" && (key !in h.chatClients || forwarded))
            && (forwarded ==> h.chatClients[key] in old(h.outbox)
                              && old(h.outbox)[h.chatClients[key]] + [RawFrame(frame.raw)] <= h.outbox[h.chatClients[key]])
    ensures !broadcast ==> h.outbox == old(h.outbox) && h.notifications == old(h.notifications)
    ensures Grows(old(h.outbox), h.outbox)
    ensures h.clients == old(h.clients) && h.chatClients == old(h.chatClients) && h.failed == old(h.failed)
    ensures h.users == old(h.users) && h.messages == old(h.messages) && h.byNickname == old(h.byNickname)
    ensures broadcast ==>
              var sender := SenderOf(frame);
              var key := ChatKey(recipientID, sender);
              var written := if forwarded then Send(old(h.outbox), h.chatClients[key], RawFrame(frame.raw)) else old(h.outbox);
              (NotificationInsertFails !in faults ==>
                 h.notifications == old(h.notifications)[old(h.nextNotificationId) :=
                                      NotificationRecord(recipientID, sender, "message", Some(0), now, false)])
              && (NotificationInsertFails in faults ==> h.notifications == old(h.notifications))
              && h.outbox == NewMessageOutbox(written, h.clients, h.failed, h.users, h.byNickname, h.notifications,
                                              if NotificationInsertFails in faults then 0 else old(h.nextNotificationId),
                                              sender, recipientID, faults)
  {
    forwarded, broadcast := false, false;
    var sender := SenderOf(frame);
    if sender == "" {
      return;
    }
    var key := ChatKey(recipientID, sender);
    if key in h.chatClients {
      var c := h.chatClients[key];
      var ok := h.WriteJson(c, RawFrame(frame.raw));
      if !ok {
        return;
      }
      forwarded := true;
    }
    broadcast := true;
    var _ := h.BroadcastNewMessage(sender, recipientID, now, faults);
  }

  /**
   * One frame of the read loop with what the model takes from outside: the send time the
   * frame's timestamp formats to (or the current time when it does not parse), and whether
   * the insert fails.
   */
  datatype FrameStep = FrameStep(frame: Frame, sentAt: string, insertFails: bool)

  predicate WellFormedSteps(steps: seq<FrameStep>)
  {
    forall i :: 0 <= i < |steps| ==> MessageFieldsPresent(steps[i].frame)
  }

  /** The message a step stores: a message frame whose insert does not fail. */
  function StoredBy(step: FrameStep): seq<MessageRecord>
    requires MessageFieldsPresent(step.frame)
  {
    var a := Classify(step.frame);
    if a.SaveAndForward? && !step.insertFails then [MessageRecord(a.sender, a.recipient, a.content, step.sentAt, false)]
    else []
  }

  /** The messages a sequence of frames stores, in frame order. */
  function Persisted(steps: seq<FrameStep>): seq<MessageRecord>
    requires WellFormedSteps(steps)
  {
    if steps == [] then [] else Persisted(steps[..|steps| - 1]) + StoredBy(steps[|steps| - 1])
  }

  /** Typing frames and frames that are skipped or ignored store nothing. */
  lemma {:induction false} OnlyMessagesPersist(steps: seq<FrameStep>)
    requires WellFormedSteps(steps)
    requires forall i :: 0 <= i < |steps| ==> !Classify(steps[i].frame).SaveAndForward?
    ensures Persisted(steps) == []
  {
    if steps != [] {
      OnlyMessagesPersist(steps[..|steps| - 1]);
    }
  }

  lemma GrowsTransitive(a: map<ConnId, seq<Event>>, b: map<ConnId, seq<Event>>, c: map<ConnId, seq<Event>>)
    requires Grows(a, b) && Grows(b, c)
    ensures Grows(a, c)
  {
  }

  /**
   * One pass of the read loop: a message frame is stored (unless the insert fails) and
   * forwarded either way; a typing frame is forwarded and not stored; anything else does
   * nothing.
   */
  method HandleChatFrame(h: Hub, step: FrameStep, now: int, faults: set<HubFault>) returns (forwarded: bool)
    requires h.Valid() && MessageFieldsPresent(step.frame)
    modifies h
    ensures h.Valid()
    ensures h.messages == old(h.messages) + StoredBy(step)
    ensures Classify(step.frame).NoAction? ==> h.outbox == old(h.outbox) && !forwarded
    ensures var a := Classify(step.frame);
            var recipient := if a.SaveAndForward? then a.recipient else if a.ForwardTyping? then a.recipient else "";
            var key := ChatKey(recipient, SenderOf(step.frame));
            !a.NoAction? ==>
              (forwarded <==> SenderOf(step.frame) != "" && key in h.chatClients && h.chatClients[key] !in h.failed)
    ensures Grows(old(h.outbox), h.outbox)
    ensures h.clients == old(h.clients) && h.chatClients == old(h.chatClients) && h.failed == old(h.failed)
    ensures h.users == old(h.users)
  {
    forwarded := false;
    var a := Classify(step.frame);
    match a
    case NoAction =>
    case SaveAndForward(sender, recipient, content, timestamp) =>
      if !step.insertFails {
        h.messages := h.messages + [MessageRecord(sender, recipient, content, step.sentAt, false)];
      }
      var broadcast;
      forwarded, broadcast := ForwardMessageToUser(h, recipient, step.frame, now, faults);
    case ForwardTyping(recipient) =>
      var broadcast;
      forwarded, broadcast := ForwardMessageToUser(h, recipient, step.frame, now, faults);
  }

  /**
   * The read loop of HandleChatWebSocket over the frames read before the connection fails:
   * exactly the message frames whose insert succeeds are stored, in order; the registries are
   * untouched and outboxes only grow.
   */
  method ChatReadLoop(h: Hub, steps: seq<FrameStep>, now: int, faults: set<HubFault>)
    requires h.Valid() && WellFormedSteps(steps)
    modifies h
    ensures h.Valid()
    ensures h.messages == old(h.messages) + Persisted(steps)
    ensures Grows(old(h.outbox), h.outbox)
    ensures h.clients == old(h.clients) && h.chatClients == old(h.chatClients) && h.failed == old(h.failed)
    ensures h.users == old(h.users)
  {
    var i := 0;
    while i < |steps|
      invariant 0 <= i <= |steps|
      invariant h.Valid()
      invariant h.messages == old(h.messages) + Persisted(steps[..i])
      invariant Grows(old(h.outbox), h.outbox)
      invariant h.clients == old(h.clients) && h.chatClients == old(h.chatClients) && h.failed == old(h.failed)
      invariant h.users == old(h.users)
    {
      assert steps[..i + 1][..i] == steps[..i];
      ghost var before := h.outbox;
      var _ := HandleChatFrame(h, steps[i], now, faults);
      GrowsTransitive(old(h.outbox), before, h.outbox);
      i := i + 1;
    }
    assert steps[..i] == steps;
  }
}
