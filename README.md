# social-forum in Dafny

A Dafny model of the rule sets at the heart of the social-forum web application: a Go HTTP
server and a JavaScript single-page client for a discussion forum with posts, categories,
likes, comments, notifications and private chat. Databases, sockets and the DOM are replaced by
maps, sequences and outboxes. Each rule set is stated as functions and methods with contracts,
and lemmas prove the properties the code promises.

The model follows the structure of the program, one module per core file:

- **Validators and sanitisers**:
  - `Validation` (utils/validation.go): ids, e-mail, nickname, content, SanitizeString.
  - `Auth` (utils/auth.go): the username and password flag loops.
  - `ImageValidation` (utils/validateimage.go).
  - `EditPost.EscapeHtml` (edit_post.js).
  - `ProfileHandler.IsValidImageType`.
  - Regular expressions are written out as the character-class predicates they denote, and the
    e-mail pattern is proved equal to its deterministic reading.
- **In-memory registries and real-time fan-out**:
  - `Sessions` (utils/session.go) and `OnlineUsers` (authentication/server.go) are classes over maps.
  - `RealtimeHub` (authentication/websocket.go) is class `Hub`. It holds the registry of
    notification sockets as `map<string, ConnId>`, a per-connection outbox, a set of failing
    connections and the tables the broadcasts read and write. Each locked section and each
    goroutine body is one method step.
  - `ChatSocket` (authentication/chat_websocket.go) and `ChatHandler` (authentication/chat_handler.go)
    work on the same `Hub`: the "user:partner" chat registry, frame routing, history paging with
    its in-place reversal, message delivery and read receipts.
- **Forum domain rules**:
  - `ForumDb` holds the tables as maps and the like/dislike toggle.
  - `PostRows` is the join-row grouping shared by scanPosts and filters.go.
  - Also `PostHandler`, `ApiHandler`, `Filters`, `NotificationHandler` (class
    `NotificationStore`), `UserHandler` and `ProfileHandler`.
- **Client-side state**:
  - `EventBus` (class `Bus`), `NavigationHelper` (class `Navigator`) and `WebSocketService`
    (class `Service`).
  - `NotificationToast` (notification-handler.js) and `NotificationsPage` (class `NotificationsComponent`).
  - `AppRouter` (app.js: handleRoute, the route handlers, navigateTo as class `Browser`) and
    `PostsView` (posts.js).
  - `JsValues` writes out JavaScript's truthiness and `||`, which the client applies to every
    field it reads.
- **Shared modules**: `Wrappers` (Option, Result) and `Strings`. `Strings` models the Go
  standard-library string functions the core calls: strings.TrimSpace, strings.Split,
  strings.TrimPrefix, strconv.Atoi, and len as a UTF-8 byte count.

Go's integers are 64-bit. Where a product can leave that range (the chat history offset), the
wrap-around is written out in the as-written member `ChatHandler.OffsetAsWritten` (through
`ChatHandler.Wrap64`). The handler `ChatHandler.GetChatHistory` uses the corrected
`ChatHandler.Offset` instead; see "## Findings".

The /notifications route is modelled as `AppRouter.NotificationsView` for a signed-in visitor.
In the code (static/js/app.js:323) the route tests `typeof NotificationsComponent === 'function'`.
app.js does not import that class, and notifications.js only exports it, so the test is false
and the page shows the placeholder text. The model does not tell the placeholder from the
component, and `NotificationsPage` models the component as it would behave once mounted.

Go map iteration is taken in first-seen order. In the row grouping, this is the order in which
post ids first appear in the rows.

Where this model and the written design of the system disagree, the model follows the code:

- **Registering a second connection.** The design says a second connection for a user closes
  the first. The code (authentication/websocket.go:110-112) only replaces the registry entry.
  The older connection stays open, with its outbox (`RealtimeHub.Hub.Connect`, `Register`).
- **Deregistering.** The design says a connection may deregister only an entry that still holds
  it. The code deletes the user's entry unconditionally. That is listed under Findings, with
  both versions modelled.

## Model

| member | source | states |
|---|---|---|
| Strings.TrimSpace | utils/validation.go:113 | strings.TrimSpace: the result neither starts nor ends with white space and is no longer than the input |
| Strings.TrimSpaceEmpty | utils/validation.go:113-116 | trimming leaves nothing exactly when the text is all white space |
| Strings.Split | authentication/user_handler.go:37 | strings.Split: at least one piece, and no piece contains the separator |
| Strings.SplitJoin | authentication/user_handler.go:37 | joining the pieces with the separator gives the path back |
| Strings.TrimPrefix | controllers/profile_handler.go:42 | strings.TrimPrefix: the prefix and the result make up the input when it has the prefix; otherwise the input comes back |
| Strings.Atoi | utils/validation.go:45 | strconv.Atoi: a value exactly for an optional sign and at least one digit whose decimal value is in the int64 range, and then that value; "", a bare sign, a space or any other character gives an error |
| Strings.AtoiNatToString | utils/validation.go:45 | Atoi reads back every non-negative int64 written in decimal |
| Strings.AtoiIntToString | utils/validation.go:45 | Atoi reads back every int64, negative ones included, written in decimal |
| Strings.AtoiRefusals | utils/validation.go:45 | "12x", "-", "+", "" and " 1" are all refused |
| Validation.UuidGroupsArePositions | utils/validation.go:30 | the UUID pattern (8-4-4-4-12 lower-case hex groups joined by '-') holds exactly when the string has the fixed 36-character shape |
| Validation.ValidateUserID | utils/validation.go:24-40 | accepted exactly when the id has the lower-case UUID shape (the empty id included in the refusal); every refusal is ErrInvalidUserID |
| Validation.UserIDRejectsUpperHex | utils/validation.go:30-37 | an id holding an upper-case hex digit anywhere is refused |
| Validation.ValidatePostID | utils/validation.go:44-53 | accepted exactly when strconv.Atoi succeeds with a positive value, which is returned; otherwise (0, ErrInvalidPostID) |
| Validation.ValidateCommentID | utils/validation.go:57-66 | the same rule as post ids, with ErrInvalidCommentID |
| Validation.ValidateCategoryID | utils/validation.go:124-133 | the same rule as post ids, with ErrInvalidCategoryID |
| Validation.IdValidatorsAgree | utils/validation.go:44-66 | the post, comment and category validators accept the same strings and return the same number |
| Validation.PostIDAcceptsDecimal | utils/validation.go:44-53 | the decimal rendering of every id from 1 up to the int64 maximum is accepted and read back as that id |
| Validation.DomainPatternMatches | utils/validation.go:75 | a domain matching `[a-zA-Z0-9.-]+\.[a-zA-Z]{2,}` under some split is accepted by the split at the last dot |
| Validation.MatchesDomainPattern | utils/validation.go:75 | the split at the last dot is one of the splits the domain pattern allows |
| Validation.DomainReadings | utils/validation.go:75 | both readings of the domain part agree on every string |
| Validation.FirstAt | utils/validation.go:75 | the '@' after a local part is the first '@' of the address |
| Validation.EmailPatternMatches | utils/validation.go:75 | an address matching the pattern under some split is accepted by the deterministic reading |
| Validation.MatchesEmailPattern | utils/validation.go:75 | the deterministic reading only accepts addresses that match the pattern |
| Validation.EmailReadings | utils/validation.go:75 | the regular expression and its deterministic reading agree on every string |
| Validation.ValidateEmail | utils/validation.go:69-85 | accepted exactly when the address matches `^[a-zA-Z0-9._%+-]+@[a-zA-Z0-9.-]+\.[a-zA-Z]{2,}$` (so "" is refused); every refusal is ErrInvalidEmail |
| Validation.DomainHasNoAt | utils/validation.go:75 | an accepted domain holds no '@' |
| Validation.SingleAtAt | utils/validation.go:75 | an address with an '@' and none before or after it holds exactly one |
| Validation.MatchedEmailHasOneAt | utils/validation.go:75 | an address the deterministic reading accepts holds exactly one '@' |
| Validation.AcceptedEmailHasOneAt | utils/validation.go:69-85 | an accepted address holds exactly one '@' |
| Validation.AcceptedEmailEnding | utils/validation.go:69-85 | an accepted address ends in a dot followed by at least two ASCII letters |
| Validation.ValidateNickname | utils/validation.go:88-109 | accepted exactly when it has 3 to 30 bytes, all from `[a-zA-Z0-9_.-]` (so "" is refused); every refusal is ErrInvalidNickname |
| Validation.ValidateContent | utils/validation.go:112-121 | no error exactly when the content has a visible character and either the limit is not positive or the trimmed byte length is within it; ErrEmptyContent exactly when the content is all white space; ErrContentTooLong exactly when the trimmed content is non-empty, the limit positive and the trimmed byte length above it; no other error |
| Validation.TrimLeftSkips | utils/validation.go:113 | strings.TrimSpace's left pass removes exactly the leading white space |
| Validation.TrimRightSkips | utils/validation.go:113 | strings.TrimSpace's right pass removes exactly the trailing white space |
| Validation.TrimSpaceSurrounding | utils/validation.go:113 | trimming removes exactly the surrounding white space of a text that starts and ends with a visible character |
| Validation.PaddingIgnored | utils/validation.go:112-121 | white space around the content never changes the verdict |
| Validation.StripTags | utils/validation.go:138-139 | removing `<[^>]*>` matches keeps only characters of the input and never lengthens it; StripTagsSpans says which characters |
| Validation.StripTagsNoTag | utils/validation.go:138-139 | after the removal no complete tag `<...>` is left |
| Validation.StripTagsKeepsPlain | utils/validation.go:138-139 | a text with no complete tag comes back unchanged |
| Validation.StripTagsSpans | utils/validation.go:138-139 | for a text cut into plain pieces, tags `<` + tag + `>` and a tag-free tail, the removal keeps exactly the plain pieces and the tail, in order |
| Validation.SpansExist | utils/validation.go:138-139 | every text can be cut into plain pieces, tags and a tag-free tail, so StripTagsSpans describes the removal on every input |
| Validation.QuotesRoundTrip | utils/validation.go:142 | doubling single quotes is undone by halving them |
| Validation.DoubleQuotesNoTag | utils/validation.go:142 | doubling quotes introduces no tag |
| Validation.DoubleQuotesCounts | utils/validation.go:142 | doubling quotes doubles the number of single quotes, keeps the count of every other character and lengthens the text by the number of quotes |
| Validation.ReplaceCharChars | utils/validation.go:142 | a replace-all only brings in characters of the input or of the replacement |
| Validation.SanitizeString | utils/validation.go:136-145 | the result holds no tag; halving its doubled quotes gives the tag-stripped input; it has twice the stripped text's single quotes and the same count of every other character, and is longer by the number of quotes |
| Validation.SanitizePlain | utils/validation.go:136-145 | on a text with no complete tag the result is the text with every single quote doubled |
| Auth.ValidateUsername | utils/auth.go:13-25 | the rune loop sets the letter and digit flags exactly when such a rune occurs, and the result is the returned expression as Go groups it, which is true exactly when the name holds a letter |
| Auth.UsernameRuleIsHasLetter | utils/auth.go:24 | `len >= 3 && len <= 30 && hasLetter && hasNumber \|\| hasLetter` reduces to hasLetter |
| Auth.UsernameLengthIgnored | utils/auth.go:24 | a one-letter name and a 31-letter name are both accepted although the documented bounds are 3 to 30 |
| Auth.UsernameIntendedBounds | utils/auth.go:10 | the documented rule accepts only what the code accepts and only names of 3 to 30 bytes, and refuses "a" |
| Auth.ValidateUsernameIntended | utils/auth.go:10-25 | the same loop followed by the documented rule: accepted exactly when 3 to 30 bytes long with a letter |
| Auth.Classify | utils/auth.go:44-53 | the switch picks the first matching class: lower, then upper, then digit, then punctuation or symbol |
| Auth.ValidatePassword | utils/auth.go:35-56 | accepted exactly when at least 8 bytes long and holding a lower-case letter, an upper-case letter, a digit and a punctuation or symbol character; fewer than 8 bytes is always refused |
| Auth.ShortPasswordRejected | utils/auth.go:36-38 | an ASCII password of fewer than 8 characters is refused |
| Auth.Utf8LenAppend | utils/auth.go:36 | the byte length of a concatenation is the sum of the byte lengths |
| Auth.PasswordExtension | utils/auth.go:35-56 | an accepted password stays accepted with any text added before or after it |
| ImageValidation.ExtScan | utils/validateimage.go:31 | the backward scan of filepath.Ext: a non-empty result is a suffix starting with the only dot after the last '/'; an empty one means every dot before the scan point has a '/' after it |
| ImageValidation.Ext | utils/validateimage.go:31 | filepath.Ext: the suffix from the final '.' of the last path element, or "" when that element has no dot |
| ImageValidation.ValidateImage | utils/validateimage.go:24-43 | a file over 20 << 20 bytes is "file too large" whatever its name and type; otherwise it passes exactly when the extension is one of .jpg .jpeg .png .gif and the content type one of ValidImageTypes, and every other refusal is "invalid file type" |
| ImageValidation.ExtOfName | utils/validateimage.go:31 | the extension of stem + "." + suffix, for a suffix without '.' or '/', is "." + suffix |
| ImageValidation.ExtScanSkips | utils/validateimage.go:31 | the scan started anywhere after the final dot ends at that dot |
| ImageValidation.SizeBoundary | utils/validateimage.go:10 | exactly 20 << 20 bytes passes the size check; one byte more is refused for its size |
| ImageValidation.UpperCaseExtensionRefused | utils/validateimage.go:32-39 | ".PNG" is refused: the comparison is case-sensitive |
| ImageValidation.FinalDotOnly | utils/validateimage.go:31-39 | "a.png.exe" is refused: only the final dot counts |
| ImageValidation.ContentTypeChecked | utils/validateimage.go:33-37 | an allowed extension with the content type "text/html" is refused |
| Sessions.Live | utils/session.go:24-30 | the entries GetSession can still return at a given instant: those not expired then |
| Sessions.SessionManager.constructor | utils/session.go:15 | the table starts empty |
| Sessions.SessionManager.GetSession | utils/session.go:18-31 | an absent id is "session not found" with the table unchanged; an entry expired at now is removed and reported "session expired"; a live entry is returned as stored with the table unchanged; the live part of the table never changes |
| Sessions.SessionManager.DeleteSession | utils/session.go:34-37 | removes exactly that key, and changes nothing when it is absent |
| OnlineUsers.Registry.constructor | authentication/server.go:7-12 | the registry starts empty |
| OnlineUsers.Registry.AddOnlineUser | authentication/server.go:15-19 | userID now maps to username, overwriting an earlier name; every other entry is kept |
| OnlineUsers.Registry.RemoveOnlineUser | authentication/server.go:22-26 | exactly userID is removed; removing an absent id changes nothing |
| OnlineUsers.Registry.GetOnlineUsers | authentication/server.go:29-41 | one entry per registered user, none twice, each carrying the name stored for its id, and no other entries |
| UserHandler.Dispatch | authentication/user_handler.go:37-53 | the fourth '/'-piece "with-last-message" selects the chat listing; at most three pieces or an empty fourth selects the full listing; any other fourth piece is looked up as an id, and such an id never contains '/' |
| UserHandler.ListingPath | authentication/user_handler.go:45-48 | "/api/users" lists every user |
| UserHandler.UserPath | authentication/user_handler.go:37-53 | "/api/users/" plus a piece without '/' lists everyone when the piece is empty, lists chat partners for "with-last-message", and looks up any other piece as an id |
| UserHandler.ToResponse | authentication/user_handler.go:163-171 | keeps id, nickname, email and online flag; a NULL picture becomes ""; the user name is the nickname |
| UserHandler.UsersListing | authentication/user_handler.go:151-179 | at most one entry per row, each with userName equal to nickname; when every row scans, exactly one per row, in query order |
| UserHandler.PartnersListing | authentication/user_handler.go:93-127 | the same as the user listing, and a NULL last-message time becomes "" |
| UserHandler.GetAllUsers | authentication/user_handler.go:135-183 | 500 exactly when the query fails, otherwise 200 with the listing of the rows that scan |
| UserHandler.GetUsersWithLastMessage | authentication/user_handler.go:58-131 | 400 exactly when current_user is empty, 500 exactly when it is given and the query fails, otherwise 200 with the rows' partner listing; no users on an error |
| UserHandler.ScanPartners | authentication/user_handler.go:94-122 | the rows.Next loop builds exactly the partner listing, skipping rows that fail to scan |
| UserHandler.ReservedAreNotUuids | authentication/user_handler.go:191 | none of "stats", "profile", "profile-pic" has the UUID shape |
| UserHandler.GetSingleUser | authentication/user_handler.go:187-237 | 400 exactly for a reserved name or an id without the UUID shape; otherwise 404, 500 or 200 exactly as the lookup finds no row, fails or finds one; a user is returned only with 200, built from the row found |
| UserHandler.GetUser | authentication/user_handler.go:33-54 | each route is served by its handler with that handler's status and body; any status other than 200 carries no body |
| ProfileHandler.TargetUserID | controllers/profile_handler.go:42 | strings.TrimPrefix: prefix + target is the path when it starts with "/profile/", and the path itself otherwise |
| ProfileHandler.TargetOfProfilePath | controllers/profile_handler.go:42 | "/profile/" + id names exactly id |
| ProfileHandler.CurrentUserID | controllers/profile_handler.go:45-54 | the session's user id, or "" without a valid session |
| ProfileHandler.Route | controllers/profile_handler.go:39-63 | an update exactly for a POST whose target equals the current id, and it is the current user's; every other request displays the target, with the current id and the signed-in flag |
| ProfileHandler.UpdateOnlyOwn | controllers/profile_handler.go:57 | a signed-in user's request for another id's profile is always displayed, never an update |
| ProfileHandler.AnonymousPostIsUpdate | controllers/profile_handler.go:45-60 | with no session a POST to "/profile/" is routed to the update for the empty id |
| ProfileHandler.CountOr0 | controllers/profile_handler.go:80-109 | a failed count query leaves its count at 0 |
| ProfileHandler.DisplayUserProfile | controllers/profile_handler.go:65-140 | not found exactly when the target has no row; a render error exactly when the template fails; otherwise the row's fields, the three counts (0 for a failed query), IsOwnProfile exactly when target equals current, and an unread count that is queried only for a signed-in user's own profile |
| ProfileHandler.AnonymousOwnProfile | controllers/profile_handler.go:112-126 | without a session, "/profile/" is displayed as one's own profile, not signed in, with no unread count |
| ProfileHandler.IsValidImageType | controllers/profile_handler.go:236-243 | true exactly for image/jpeg, image/png and image/gif; a missing key reads false |
| ProfileHandler.Message | controllers/profile_handler.go:166-220 | every upload error is shown with a non-empty message |
| ProfileHandler.HandleProfileUpdate | controllers/profile_handler.go:141-235 | a server error exactly when the profile row or the template is unavailable; an error page is always the user's own, signed in, with the message of its error; a size refusal implies a file over 20 << 20 bytes; a type refusal implies a file within the limit with a type not accepted; the new image is deleted again only when the UPDATE fails; a redirect to "/profile/" + userID happens only after every check passed, and the old picture is removed exactly when one was stored |
| ProfileHandler.OversizeBeforeType | controllers/profile_handler.go:181-192 | once the form parses, an oversized file is refused for its size whatever its type, and no new image is deleted |
| RealtimeHub.UsersListing | authentication/websocket.go:393-447 | at most one entry per id of the order, each the stored user with UserName its nickname, its e-mail, its online flag and a NULL picture as ""; when every id of the order is stored, exactly one entry per id, in the order |
| RealtimeHub.UsersListingOfTable | authentication/websocket.go:393-447 | over the ORDER BY nickname ASC order of the table, the list holds every user exactly once, as many entries as users, with nicknames in non-decreasing byte order |
| RealtimeHub.UsersListingEmpty | authentication/websocket.go:445-447 | an empty users table gives an empty list, never a missing one |
| RealtimeHub.SetOnline | authentication/websocket.go:138-141 | the UPDATE of is_online changes only that user's flag, and a failed UPDATE changes nothing |
| RealtimeHub.SetOnlineKeepsOrder | authentication/websocket.go:138-141 | recording a status keeps the nickname order of the table valid |
| RealtimeHub.Deliver | authentication/websocket.go:153-165 | one write of the event to every target that does not fail; other connections are untouched and a failed write is skipped |
| RealtimeHub.DeliverAll | authentication/websocket.go:150-172 | a sequence of broadcasts keeps the set of connections |
| RealtimeHub.DeliverAllSent | authentication/websocket.go:150-172 | after a sequence of broadcasts each connection holds what it held plus all the events when it is a working target, and nothing more otherwise |
| RealtimeHub.DeliverAllGrows | authentication/websocket.go:150-172 | broadcasts only append: nothing already written to a connection is lost |
| RealtimeHub.Send | authentication/websocket.go:354-362 | a unicast appends the event to that connection only |
| RealtimeHub.NewMessageOutboxSent | authentication/websocket.go:213-252 | per connection, after BroadcastNewMessage: refresh_users and the users list when it is a working registered connection, then the message notice when it is the receiver's working connection and the sender exists and the count query works; nothing else |
| RealtimeHub.MaxCreatedExists | authentication/websocket.go:304-310 | every non-empty set of notifications has one with the latest created_at |
| RealtimeHub.LatestExists | authentication/websocket.go:304-310 | ORDER BY created_at DESC LIMIT 1 returns a row whenever some notification matches |
| RealtimeHub.DeliveredToIsDeliver | authentication/websocket.go:159-165 | the loop's invariant at the end is exactly one delivery to every target |
| RealtimeHub.WriteEach | authentication/websocket.go:152-165 | the loop over a copy of the registry writes the event once to every registered connection that does not fail |
| RealtimeHub.Hub.constructor | authentication/websocket.go:37-41 | no client is registered and nothing has been written; the given nickname order must be the table's ORDER BY nickname order |
| RealtimeHub.Hub.WriteJson | authentication/websocket.go:21-25 | a write succeeds exactly on a working connection and appends to it; a failed one leaves the outbox unchanged |
| RealtimeHub.Hub.Broadcast | authentication/websocket.go:150-165 | every registered connection that works receives the event once; the registry and the tables are unchanged |
| RealtimeHub.Hub.BroadcastUsersList | authentication/websocket.go:389-473 | every working client receives the users_list of the current table, every user exactly once in nickname order (UsersListingOfTable, by the Valid invariant), or nothing when the query fails |
| RealtimeHub.Hub.BroadcastWithList | authentication/websocket.go:186-209 | every working client receives the event and then the users list |
| RealtimeHub.Hub.BroadcastUserStatus | authentication/websocket.go:136-173 | the user's is_online is set (unless the UPDATE fails), then every working client receives user_status and the users list read after the update |
| RealtimeHub.Hub.BroadcastNewUser | authentication/websocket.go:176-210 | every working client receives new_user with the user online, then the users list |
| RealtimeHub.Hub.BroadcastNotification | authentication/websocket.go:258-368 | a "message" inserts one unread notification with post id 0 (unless the INSERT fails); nothing is sent exactly when the actor is unknown, no matching notification exists for another type, the count fails, or the receiver is not connected or its write fails; a sent event goes to the receiver's connection only, carries the receiver's unread count and the actor's name and picture, and names either the inserted row (0 when the INSERT failed) or a latest matching one |
| RealtimeHub.Hub.BroadcastNewMessage | authentication/websocket.go:213-252 | the outboxes become exactly NewMessageOutbox: refresh_users and the users list to every working client, then the "message" notice to the receiver when the sender exists, the count works and the receiver is connected and working; the notification table as BroadcastNotification leaves it |
| RealtimeHub.Hub.TriggerUsersListBroadcast | authentication/websocket.go:372-386 | 405 and nothing sent for any method but POST; 200 and a users_list broadcast for POST |
| RealtimeHub.Hub.Connect | authentication/websocket.go:82-115 | 400 and no change without user_id; otherwise a new connection, registered under the user (replacing an earlier one), the user marked online, and every working client told of the status and the list |
| RealtimeHub.Hub.Register | authentication/websocket.go:105-112 | a fresh connection number, registered under the user with an empty outbox; nothing else changes |
| RealtimeHub.Hub.DisconnectAsWritten | authentication/websocket.go:117-124 | the deferred clean-up as written: the user's entry is removed whichever connection it holds, the user is marked offline and the status broadcast |
| RealtimeHub.Hub.Disconnect | authentication/websocket.go:117-124 | the intended clean-up: only when the entry still holds the closing connection is it removed, the user marked offline and the status broadcast; otherwise nothing but the closed connection changes |
| RealtimeHub.RegistryAfterDisconnectAsWritten | authentication/websocket.go:118-120 | the user is unregistered and every other entry is kept |
| RealtimeHub.RegistryAfterDisconnect | authentication/websocket.go:118-120 | the entry is removed only when it holds the closing connection |
| RealtimeHub.OlderDisconnectDropsNewer | authentication/websocket.go:110-124 | with two connections in turn for one user, closing the first unregisters the user as written, while the intended clean-up keeps the second registered |
| ChatSocket.StringField | authentication/chat_websocket.go:91 | a field reads as a string exactly when it is present and holds a JSON string, and then it is that string |
| ChatSocket.ObjectField | authentication/chat_websocket.go:99 | a field reads as an object exactly when it is present and holds a JSON object |
| ChatSocket.Classify | authentication/chat_websocket.go:83-164 | an undecodable frame or one without a string "type" does nothing; a "message" frame with a message object is saved and forwarded, with the four fields of that object; a typing or stop_typing frame with a string "recipient" is forwarded to it; every other frame is ignored |
| ChatSocket.SavedFrameSender | authentication/chat_websocket.go:182-186 | forwarding reads back the very sender that the save at line 100 stored |
| ChatSocket.TypingFrameSender | authentication/chat_websocket.go:188-191 | a typing frame is forwarded under its top-level sender, "" when it has none |
| ChatSocket.ChatKey | authentication/chat_websocket.go:57 | the key is user, ':' and partner |
| ChatSocket.ChatKeyInjective | authentication/chat_websocket.go:57 | (the same key is built at line 202) for user ids without ':', two keys are equal exactly when both the users and the partners are |
| ChatSocket.ChatConnect | authentication/chat_websocket.go:37-62 | 400 and no change when either user is missing; otherwise a fresh connection registered under "user1:user2", replacing an earlier one, and nothing else registered changes |
| ChatSocket.ChatDisconnect | authentication/chat_websocket.go:67-73 | the key is removed and the connection closed; nothing else changes |
| ChatSocket.ForwardMessageToUser | authentication/chat_websocket.go:169-225 | nothing happens when no sender can be read; the raw frame is written exactly when the window "recipient:sender" is open and works; when the broadcast runs (window closed or write succeeded, not after a failed write) the outboxes are exactly NewMessageOutbox of what the frame write left, and the notification table as BroadcastNewMessage leaves it |
| ChatSocket.OnlyMessagesPersist | authentication/chat_websocket.go:96-164 | frames that are not saved messages store nothing, however many arrive |
| ChatSocket.GrowsTransitive | authentication/chat_websocket.go:76-165 | outboxes that only grow at each step only grow over the whole loop |
| ChatSocket.HandleChatFrame | authentication/chat_websocket.go:83-164 | one frame adds exactly the message it stores; a frame that does nothing leaves every outbox unchanged; an acted-on frame is forwarded exactly when its sender's window at the recipient is open and works |
| ChatSocket.ChatReadLoop | authentication/chat_websocket.go:76-165 | the messages table grows by exactly the saved messages of the frames read, in order, and no outbox loses anything |
| ChatHandler.PositiveOr | authentication/chat_handler.go:38-51 | the parameter when it is a positive integer, the default when it is empty, not a number or not positive; always positive |
| ChatHandler.Wrap64 | authentication/chat_handler.go:53 | Go's int64 arithmetic: the value in range that is congruent to x modulo 2^64, and x itself when x is in range |
| ChatHandler.OffsetAsWritten | authentication/chat_handler.go:53 | (page - 1) * limit in 64-bit arithmetic: the true product when it fits, and some int64 whatever happens |
| ChatHandler.NegativeOffsetAsWritten | authentication/chat_handler.go:38-53 | page=4611686018427387905 and limit=2 are accepted and give a negative offset |
| ChatHandler.Offset | authentication/chat_handler.go:53 | the offset is never negative, is 0 exactly on the first page, and is below the limit only on the first page |
| ChatHandler.ToMessage | authentication/chat_handler.go:91-98 | a scanned row becomes the message with the same id, sender, recipient, content, timestamp and read flag |
| ChatHandler.Scanned | authentication/chat_handler.go:78-99 | at most one message per row; when every row scans, exactly one per row, in order; when none does, none |
| ChatHandler.ScanHistory | authentication/chat_handler.go:79-99 | the scan loop builds exactly the scanned messages |
| ChatHandler.Reversed | authentication/chat_handler.go:107-110 | element i of the result is element n-1-i of the input |
| ChatHandler.ReversedTwice | authentication/chat_handler.go:107-110 | reversing twice gives the original order back |
| ChatHandler.ReversedEnds | authentication/chat_handler.go:107-110 | the newest fetched message comes last and the oldest first |
| ChatHandler.ReverseInPlace | authentication/chat_handler.go:108-110 | the two-pointer swap loop leaves the array reversed |
| ChatHandler.GetChatHistory | authentication/chat_handler.go:27-120 | 400 exactly when either user is missing; 500 exactly when the page query fails; otherwise 200 with the scanned rows in reverse (oldest first) order; no messages on an error; the page is read at the non-negative offset (page - 1) * limit (the corrected Offset, see Findings) |
| ChatHandler.SendRejection | authentication/chat_handler.go:169-234 | 405 exactly for a method other than POST; any other rejection is 400; a request passes only with non-empty content, UUID sender and receiver, and content whose trimmed form is non-empty and at most 5000 bytes, and every such request passes |
| ChatHandler.SentAt | authentication/chat_handler.go:198-210 | the parsed timestamp when it is given and parses, the current time otherwise |
| ChatHandler.AnnounceNewMessage | authentication/chat_handler.go:272 | the outboxes become exactly NewMessageOutbox (refresh_users and the list to every working client, then the receiver's notice) and the message notification is stored unless its INSERT fails, in which case the table is unchanged |
| ChatHandler.StoreMessage | authentication/chat_handler.go:236-285 | a failed INSERT is 500 and changes nothing; otherwise exactly one unread message with the sanitised content is stored; a failed LastInsertId is 500 with nothing sent; on success 200 echoes the unsanitised content under the new message's id, with the time in RFC 3339, and the outboxes become exactly NewMessageOutbox for the sender and receiver |
| ChatHandler.SendMessage | authentication/chat_handler.go:169-286 | a rejected request changes nothing and carries its status; an accepted one is stored exactly as StoreMessage says, with the same NewMessageOutbox announcement |
| ChatHandler.ParseChatMessage | authentication/chat_handler.go:290-313 | nothing exactly when "message" is not an object or its sender, recipient or content is missing or not a string; otherwise those three fields, and the timestamp given or, when missing or empty, the current time |
| ChatHandler.Registered | authentication/chat_handler.go:356-358 | the recipient's registered connection, or none |
| ChatHandler.SendIsDeliver | authentication/chat_handler.go:350-366 | a write to one connection is a delivery to that one target, and a failed write changes nothing |
| ChatHandler.BroadcastMessageNotification | authentication/chat_handler.go:498-531 | every working client receives refresh_users and then the users list |
| ChatHandler.NotifyAllSent | authentication/chat_handler.go:498-531 | per connection, BroadcastMessageNotification appends refresh_users and the users list to a working registered connection and nothing to any other |
| ChatHandler.HandleChatMessage | authentication/chat_handler.go:289-373 | a malformed message changes nothing; otherwise it is stored exactly as StoreChatMessage says |
| ChatHandler.StoreChatMessage | authentication/chat_handler.go:317-372 | a failed INSERT changes nothing; otherwise one unread message is stored; a failed LastInsertId sends nothing; on success the stored message is echoed to the sender's connection, then to the recipient's registered connection if any, then refresh_users and the list go to every client |
| ChatHandler.UnreadFrom | authentication/chat_handler.go:425-429 | the count is 0 exactly when no message from sender to receiver is unread |
| ChatHandler.MarkedRead | authentication/chat_handler.go:438-442 | exactly the unread messages from sender to receiver become read; every other message is unchanged |
| ChatHandler.MarkedReadClears | authentication/chat_handler.go:438-442 | after the UPDATE no message from sender to receiver is unread |
| ChatHandler.MarkedReadOthers | authentication/chat_handler.go:438-442 | the UPDATE leaves the unread count of every other sender and receiver pair unchanged |
| ChatHandler.MarkedReadIdempotent | authentication/chat_handler.go:438-442 | marking the conversation read twice is the same as once |
| ChatHandler.MarkMessagesAsRead | authentication/chat_handler.go:376-494 | 405 exactly for a method other than POST, 400 exactly for an undecodable body or a missing id, 500 exactly when the UPDATE fails; on 200 the conversation is marked read, rowsAffected is the number of messages changed (0 when it cannot be read), and message_read goes to the original sender's connection only, and only when rowsAffected > 0 |
| ForumDb.Toggled | controllers/post_handler.go:659-698 | the reaction toggle: a request equal to the stored value removes it, any other request stores the requested value; every other (user, target) pair keeps its reaction; values stay 0 or 1 |
| ForumDb.ToggleTwice | controllers/post_handler.go:659-698 | the same request twice restores the prior state, except that a differing earlier reaction is removed rather than restored |
| ForumDb.Database.constructor | controllers/post_handler.go:659-698 | every table starts empty |
| PostRows.Listed | controllers/post_handler.go:1234-1237 | one post per listed id, in that order, each the one stored under it |
| PostRows.FoldWellFormed | controllers/post_handler.go:1185-1232 | the scan loop keeps postMap well formed: each id listed once, exactly the stored ids, each post under its own id |
| PostRows.AddRowWellFormed | controllers/post_handler.go:1214-1231 | one row keeps postMap well formed |
| PostRows.KnownIdWellFormed | controllers/post_handler.go:1214-1221 | appending a category to a known post keeps postMap well formed |
| PostRows.NewIdWellFormed | controllers/post_handler.go:1222-1231 | storing a new post keeps postMap well formed |
| PostRows.FoldKeys | controllers/post_handler.go:1185-1232 | an id is in postMap exactly when some row that scans carries it |
| PostRows.FoldFirstRowWins | controllers/post_handler.go:1214-1231 | a post's columns come from the first row that carries its id |
| PostRows.FoldPlainCategories | controllers/post_handler.go:1214-1229 | without de-duplication a post's categories are the valid categories of its rows, in row order, repeats kept |
| PostRows.FoldDedupCategories | controllers/filters.go:220-247 | with de-duplication a post's categories are its rows' valid categories with every repeated id dropped after its first occurrence |
| PostRows.CatsOfAbsent | controllers/post_handler.go:1214-1229 | an id no row carries has no categories |
| PostRows.DedupDistinct | controllers/filters.go:226-237 | the de-duplicated categories never list one id twice |
| PostRows.HasIdAppend | controllers/filters.go:228-233 | a category id is in a concatenation exactly when it is in one of the parts |
| PostRows.HasIdSingle | controllers/filters.go:228-233 | a category id is in a one-element list exactly when it is that element's id |
| PostRows.DedupKeepsIds | controllers/filters.go:226-237 | de-duplication keeps every category id that occurs |
| PostRows.DedupSubset | controllers/filters.go:226-237 | de-duplication adds no category that was not there |
| PostRows.NullCategoryAddsNothing | controllers/post_handler.go:1215-1224 | a row of a known post with a NULL category id or name changes nothing |
| PostRows.GroupedOnePerId | controllers/post_handler.go:1184-1238 | the listing holds exactly one post per distinct id among the rows that scan |
| PostRows.CollectPosts | controllers/post_handler.go:1234-1237 | the final loop lists exactly the stored posts in the recorded order |
| PostHandler.RootRoute | controllers/post_handler.go:68-96 | no id lists the posts; a whitespace-only id is "Post ID cannot be empty"; an id that is not an integer above zero is "Invalid post ID", before any lookup; the single post is shown exactly for a valid id of a stored post, and carries that id |
| PostHandler.FormatTimeAgo | controllers/post_handler.go:454-490 | under a minute, negative differences included, is "just now"; [24h, 48h) is "yesterday"; 30 days and more is the date |
| PostHandler.QuotientBetween | controllers/post_handler.go:461-486 | x in [lo·d, hi·d) has its truncated quotient by d in [lo, hi) |
| PostHandler.PositiveFactor | controllers/post_handler.go:461-486 | a positive product with a positive factor has a positive other factor |
| PostHandler.MinutesBucket | controllers/post_handler.go:461-466 | the minutes branch gives the count in 1..59 "minute(s) ago" |
| PostHandler.HoursBucket | controllers/post_handler.go:467-472 | the hours branch gives the count in 1..23 "hour(s) ago" |
| PostHandler.HourCountDivision | controllers/post_handler.go:476-482 | dividing the whole hours by 24 (and 7) gives the whole days (and weeks) |
| PostHandler.DaysBucket | controllers/post_handler.go:475-480 | the days branch gives a count in 2..6 |
| PostHandler.WeeksBucket | controllers/post_handler.go:481-486 | the weeks branch gives a count in 1..4 |
| PostHandler.SingularExactlyForOne | controllers/post_handler.go:463-486 | AgoText, which every counted branch of FormatTimeAgo returns, uses the singular wording exactly when the count is 1 |
| PostHandler.NeverOneDayAgo | controllers/post_handler.go:473-480 | "1 day ago" is never produced |
| PostHandler.HandleReactions | controllers/post_handler.go:632-716 | 401 without a user, 400 for an undecodable body or a like other than 0 and 1, 500 when the lookup or the write fails, and then no reaction changes; otherwise the post reaction is toggled and the status is 200 unless the counts cannot be read; no other table changes |
| PostHandler.HandleCommentReactions | controllers/post_handler.go:764-849 | the same rules and toggle on the comment reactions |
| PostHandler.HandleEditComment | controllers/post_handler.go:851-908 | 401 without a user; 400 for a bad form, a non-integer id or blank content; the comment changes only on the 303 redirect, which happens exactly for a stored comment owned by the user with no failure, and then only its content changes, to the trimmed text; 403 only for a stored comment of someone else |
| PostHandler.ScanPosts | controllers/post_handler.go:1184-1238 | an error exactly when some row fails to scan, reported at the first such row; otherwise one post per id with its categories in row order |
| Filters.FetchUserPostsForPosts | controllers/filters.go:192-256 | the rows that scan grouped by id, no category id listed twice per post, bad rows skipped |
| Filters.FetchUserPostsForLikes | controllers/filters.go:276-323 | an error exactly when some row fails to scan, at the first one; otherwise grouped with repeats kept |
| Filters.FetchUserPostsForComments | controllers/filters.go:343-395 | bad rows skipped; the others grouped with repeats kept |
| Filters.PostsListingCategoriesDistinct | controllers/filters.go:220-238 | no post of the created-posts listing lists two categories with the same id |
| Filters.PlainListingCategories | controllers/filters.go:302-316 | (and lines 370-377) in the liked and commented listings a post's categories are exactly its rows' valid categories, a repeat once per row |
| ApiHandler.ServeHTTP | controllers/api_handler.go:27-129 | OPTIONS, and only OPTIONS, is answered before any routing; a handled request runs the handler of its own path |
| ApiHandler.ProtectedRoutes | controllers/api_handler.go:50-109 | the create, react, comment, edit, created, liked, commented and delete routes of posts and comments run their handler exactly when checkAuth accepts, and answer 401 otherwise |
| ApiHandler.OpenRoutes | controllers/api_handler.go:39-124 | the listing, single-post, users, filter, category, status, session, login, register, signout and stats routes run their handler for every method, without checkAuth |
| ApiHandler.MethodRoutes | controllers/api_handler.go:110-120 | the profile route answers only GET and the profile-picture route only POST; any other method writes nothing |
| ApiHandler.UnknownRoutes | controllers/api_handler.go:126-127 | every other path is 404 |
| ApiHandler.CheckAuth | controllers/api_handler.go:131-167 | no cookie and an invalid session are told apart; a request is authenticated exactly when the cookie names a session, and then as that session's user |
| ApiHandler.CookiePreview | controllers/api_handler.go:143-148 | a value of at most 10 bytes is logged whole; a longer one as its first 10 bytes and "..." |
| ApiHandler.FirstOccurrencesDistinct | controllers/api_handler.go:584-591 | FirstOccurrences, the order in which the category loop processes names, holds every requested name and none twice |
| ApiHandler.ProcessCategories | controllers/api_handler.go:584-618 | success exactly when every requested name is in the catalog; then one id per distinct name, in order of first occurrence; otherwise the error names the first unknown name |
| ApiHandler.CreateGuard | controllers/api_handler.go:492-544 | a request passes exactly with a user, a parsed form, a non-empty title and content, at least one category and no unreadable or oversized image; a refusal is 401 without a user and 400 otherwise |
| ApiHandler.HandleCreatePost | controllers/api_handler.go:489-637 | 201 exactly when the guard passes, the image (if any) is processed, every step of the transaction succeeds and every category exists; then exactly the new post is stored, linked to each named category once; on any other status the posts and links are unchanged |
| ApiHandler.ReportedReactionMatchesTable | controllers/api_handler.go:685-733 | ReportedReaction, the userReaction of the response, is -1 exactly when the toggle left no reaction, and otherwise the value now stored |
| ApiHandler.HandleReaction | controllers/api_handler.go:648-734 | 400 for an undecodable body and 500 when any step of the transaction fails, both with no reaction change; otherwise the toggle is committed, and 200 reports userReaction |
| ApiHandler.HandleEditPost | controllers/api_handler.go:784-849 | checks in order: a missing post is 404, another user's post 403 even with empty fields, then empty title or content 400; 200 exactly for the owner with both fields, and then only that post's title and content change |
| ApiHandler.HandleDeletePost | controllers/api_handler.go:851-941 | 404 for a missing post and 403 for another user's; 200 exactly for the owner when every step succeeds, and then the post, its categories, its reactions and its comments are removed and nothing else; any other status changes nothing |
| NotificationHandler.ServeHTTP | controllers/notification_handler.go:28-43 | exactly the five listed (method, path) pairs dispatch to their handlers; everything else is the 405 page |
| NotificationHandler.FromRow | controllers/notification_handler.go:81-103 | a NULL post_id becomes 0 and a NULL actor picture ""; id, read flag and actor id are kept |
| NotificationHandler.CountUnread | controllers/notification_handler.go:104-106 | the number of unread entries, never more than the list holds |
| NotificationHandler.CountGoodRows | controllers/notification_handler.go:81-85 | never more than the rows, all of them when none fails to scan, none when all do |
| NotificationHandler.GetUserNotifications | controllers/notification_handler.go:71-110 | the scan loop lists the rows that scan and counts exactly the unread ones among those returned |
| NotificationHandler.ListingLength | controllers/notification_handler.go:81-85 | Listing holds one notification per row that scans (CountGoodRows) |
| NotificationHandler.BadRowIgnored | controllers/notification_handler.go:81-85 | a row that fails to scan is left out of both the list and the count |
| NotificationHandler.HandleGetNotificationsJson | controllers/notification_handler.go:208-246 | 401 exactly without a valid session, 500 exactly when the query fails, otherwise the listing (null when empty), its unread count and the current user's id |
| NotificationHandler.NoUnreadIds | controllers/notification_handler.go:255-258 | a user has no unread notification exactly when every notification of theirs is read |
| NotificationHandler.MarkedRead | controllers/notification_handler.go:137-141 | only the notification with that id and that user_id becomes read; every other row is unchanged |
| NotificationHandler.AllMarkedRead | controllers/notification_handler.go:175-179 | every notification of the user is read afterwards; other users' rows are unchanged |
| NotificationHandler.MarkedReadUnread | controllers/notification_handler.go:137-141 | marking one notification read removes at most that id from the user's unread set |
| NotificationHandler.AllMarkedReadClears | controllers/notification_handler.go:175-179 | after mark-all the user has no unread notification |
| NotificationHandler.AllMarkedReadOthers | controllers/notification_handler.go:175-179 | mark-all leaves every other user's unread set unchanged |
| NotificationHandler.NotificationStore.constructor | controllers/notification_handler.go:17-19 | no notification is stored |
| NotificationHandler.NotificationStore.GetUnreadCount | controllers/notification_handler.go:252-261 | 0 exactly when every notification of the user is read |
| NotificationHandler.NotificationStore.HandleMarkAsRead | controllers/notification_handler.go:115-149 | 401 without a session, 400 for an undecodable body; 200 exactly when the UPDATE runs, and then only the matching notification becomes read; otherwise nothing changes |
| NotificationHandler.NotificationStore.HandleMarkAllAsRead | controllers/notification_handler.go:153-204 | 401 without a session; 200 exactly when the UPDATE runs, and then every notification of the user is read, markedAsRead is the number that were unread (0 when it cannot be read) and newUnreadCount 0 agrees with the table; otherwise nothing changes |
| NotificationHandler.NotificationStore.HandleGetNotificationCount | controllers/notification_handler.go:265-299 | 401 without a session, 500 when the query fails, otherwise 200 with the user's unread count |
| EventBus.Without | static/js/utils/event-bus.js:25 | the filter keeps, in order, every subscriber other than the callback, and none of it; without it the list is unchanged |
| EventBus.WithoutAppend | static/js/utils/event-bus.js:25 | the filter distributes over concatenation |
| EventBus.WithoutKeepsOthers | static/js/utils/event-bus.js:25 | unsubscribing one callback leaves the number of subscriptions of every other callback unchanged |
| EventBus.WithoutTwice | static/js/utils/event-bus.js:24-26 | calling an unsubscribe function twice is the same as once |
| EventBus.OnThenUnsubscribe | static/js/utils/event-bus.js:16-26 | subscribing and then unsubscribing removes every subscription of that callback and keeps the others as they were |
| EventBus.CallsOf | static/js/utils/event-bus.js:36-38 | one call per subscription, in subscription order, each with the emitted data |
| EventBus.Bus.constructor | static/js/utils/event-bus.js:6-8 | no event has subscribers |
| EventBus.Bus.On | static/js/utils/event-bus.js:16-22 | the callback is appended to the event's list, created when missing; other events are untouched |
| EventBus.Bus.Unsubscribe | static/js/utils/event-bus.js:24-26 | the event's list loses exactly that callback; other events are untouched |
| EventBus.Bus.Subscribers | static/js/utils/event-bus.js:35 | an event never subscribed to has none |
| EventBus.Bus.Emit | static/js/utils/event-bus.js:34-40 | every subscriber is called once with the data, in subscription order, and an unknown event calls nothing |
| NavigationHelper.Pushed | static/js/services/navigation-helper.js:29-34 | the component is last; below the bound it is appended, at the bound the oldest is dropped, so the stack never exceeds 10 |
| NavigationHelper.Unmounted | static/js/services/navigation-helper.js:20-23 | the previous component is unmounted exactly when it exists and has an unmount method |
| NavigationHelper.Navigator.constructor | static/js/services/navigation-helper.js:7-10 | no current component and an empty stack |
| NavigationHelper.Navigator.SetCurrentComponent | static/js/services/navigation-helper.js:16-35 | the previous component is unmounted when it can be, the new one becomes current and is pushed on the bounded stack |
| NavigationHelper.Navigator.HandleBack | static/js/services/navigation-helper.js:41-57 | the top is popped; back is handled exactly when at least two components were stacked, and then the new top is current; otherwise the current component stays and the stack is empty |
| NavigationHelper.Navigator.CleanUp | static/js/services/navigation-helper.js:62-71 | the current component is unmounted when it can be, then there is no current component and the stack is empty |
| NavigationHelper.BackAfterPush | static/js/services/navigation-helper.js:29-57 | below the bound, back after a push returns to the stack as it was and to its top component |
| WebSocketService.OrNum | static/js/services/websocket-service.js:213 | `a || b || d` on numbers: the first field that is present and non-zero, else the default |
| WebSocketService.OrStr | static/js/services/websocket-service.js:299-306 | `a || b || d` on strings: the first non-empty field, else the default |
| WebSocketService.HandlerFor | static/js/services/websocket-service.js:101-136 | each of the eight known types has its handler exactly: new_notification, user_status, new_user and users_list their own, message and refresh_users the refresh handler, typing and stop_typing the typing handler; every other type none |
| WebSocketService.NextAttempts | static/js/services/websocket-service.js:351-358 | below the limit of 5 the counter goes up by one, at the limit it stays, and it never passes 5 |
| WebSocketService.AttemptsSaturate | static/js/services/websocket-service.js:351-358 | from 0, n reconnects in a row leave min(n, 5) attempts |
| WebSocketService.Transmitted | static/js/services/websocket-service.js:339-345 | a run of sends transmits at most the messages handed to it, and all of them when none throws |
| WebSocketService.InferredKind | static/js/services/websocket-service.js:221-233 | an untyped notification is a comment when it names a post and a comment, a like when it names only a post, and a message otherwise |
| WebSocketService.WithKind | static/js/services/websocket-service.js:219-235 | a typed notification is left alone, an untyped one gets the inferred type, and the result always has a type |
| WebSocketService.ValidatedPopup | static/js/services/websocket-service.js:298-307 | the popup always has an actor name and a type; "Someone" and "message" stand in for missing ones; postID is preferred to post_id |
| WebSocketService.ListedStatuses | static/js/services/websocket-service.js:266-273 | a users_list frame keeps every recorded user and adds only ids the list names |
| WebSocketService.ListedStatusesLast | static/js/services/websocket-service.js:266-273 | the last entry for an id decides its status: isOnline or is_online, false otherwise |
| WebSocketService.Service.constructor | static/js/services/websocket-service.js:9-18 | no socket, disconnected, 0 attempts, no statuses, no user, nothing pending |
| WebSocketService.Service.Initialize | static/js/services/websocket-service.js:24-46 | a connected service returns at once; otherwise the current user is taken from the session and a socket is opened exactly when that id is truthy |
| WebSocketService.Service.Send | static/js/services/websocket-service.js:331-346 | while not connected the message is queued and false returned; when connected it is transmitted and true returned unless socket.send throws; every other field is unchanged and Valid is kept |
| WebSocketService.Service.OnOpen | static/js/services/websocket-service.js:49-64 | connected, attempts reset to 0, the queue sent in order and emptied, then websocket_connected emitted |
| WebSocketService.Service.Reconnect | static/js/services/websocket-service.js:351-365 | at the limit nothing happens; otherwise one more attempt is counted and one retry scheduled, keeping attempts at most 5 |
| WebSocketService.Service.OnClose | static/js/services/websocket-service.js:68-78 | disconnected, websocket_disconnected emitted, the attempt counter advanced and one retry scheduled as reconnect does (none at the limit); socket, statuses, queue, wire and user unchanged; Valid kept |
| WebSocketService.Service.OnError | static/js/services/websocket-service.js:80-87 | disconnected and websocket_error emitted, with no retry scheduled and the attempts, socket, statuses, queue, wire and user unchanged; Valid kept |
| WebSocketService.Service.Close | static/js/services/websocket-service.js:401-407 | the socket is dropped and, when there was one, the service disconnected; without a socket the connected flag is unchanged; nothing is emitted or scheduled and every other field is unchanged; Valid kept |
| WebSocketService.Service.GetUserStatus | static/js/services/websocket-service.js:322-324 | the recorded status, false for a user never reported |
| WebSocketService.Service.HandleUserStatus | static/js/services/websocket-service.js:162-173 | the status is recorded, so GetUserStatus then returns it, and user_status_change is emitted; every other field is unchanged; Valid kept |
| WebSocketService.Service.HandleNewUser | static/js/services/websocket-service.js:179-189 | a user with an id is recorded as online whatever is_online says, and user_signup emitted; otherwise the statuses and events are unchanged; the connection, queue, wire, attempts and user never change; Valid kept |
| WebSocketService.Service.HandleRefreshUsers | static/js/services/websocket-service.js:195-200 | refresh_users_list is emitted and every other field is unchanged; Valid kept |
| WebSocketService.Service.HandleTypingStatus | static/js/services/websocket-service.js:146-156 | user_typing_status is emitted, typing exactly for a "typing" frame; every other field is unchanged; Valid kept |
| WebSocketService.Service.HandleUsersList | static/js/services/websocket-service.js:262-277 | the statuses become ListedStatuses of the list, in list order (unchanged without a list), and users_list_update is emitted even without a list; every other field is unchanged; Valid kept |
| WebSocketService.Service.ForMe | static/js/services/websocket-service.js:210 | a frame is for this client exactly when either receiver spelling equals the current id |
| WebSocketService.Service.HandleNewNotification | static/js/services/websocket-service.js:206-256 | a frame for someone else, or with no notification, emits nothing; otherwise the popup, new_notification and update_notification_count are emitted in that order, with the type filled in; the statuses, queue, wire, connection and user never change; Valid kept |
| WebSocketService.Service.SendTypingStatus | static/js/services/websocket-service.js:373-396 | without a current user or a recipient, false and nothing sent or emitted; otherwise a typing or stop_typing message goes through send and the local typing event is emitted; the user, connection, statuses, attempts and schedule never change; Valid kept |
| NotificationToast.ShownName | static/js/notification-handler.js:178 | the actor name when present and non-empty, "Someone" otherwise; never empty |
| NotificationToast.KindOf | static/js/notification-handler.js:45-56 | the one classification of a type that both the icon switch and the phrase switch make: like, comment, message or other, each exactly for its type |
| NotificationToast.Phrase | static/js/notification-handler.js:180-189 | like, comment and message each get their own phrase, and every other type the generic one, read from KindOf |
| NotificationToast.SameMessageSameKind | static/js/notification-handler.js:177-190 | two notifications whose actor and FormatNotificationMessage text agree also agree on the phrase, and on whether they are likes or messages |
| NotificationToast.GetNotificationLink | static/js/notification-handler.js:197-226 | likes and comments link to their post (postID before post_id), or to "/" without one; messages open the chat with the sender when both ids are known, "/chat" otherwise; other types go to "/" |
| NotificationToast.Icon | static/js/notification-handler.js:45-56 | heart, comment and envelope for the three known types, the bell for every other, read from KindOf |
| NotificationToast.IconMatchesPhrase | static/js/notification-handler.js:45-56 | two types get the same icon exactly when they get the same phrase, exactly when they are the same kind |
| NotificationToast.AvatarOf | static/js/notification-handler.js:42-70 | a picture exactly when one is given; otherwise one character: the actor name's first letter upper-cased by UpperAscii (ASCII only, see Left out), or "U" |
| NotificationToast.ShowToastNotification | static/js/notification-handler.js:30-79 | no toast without a notification; otherwise the toast carries the icon, avatar, message and link of that notification |
| NotificationToast.ToastOfValidatedPopup | static/js/notification-handler.js:177-225 | a toast built from the socket service's validated popup names the popup's actor, links likes and comments to the popup's post or "/" when it has none, and sends a message without a sender to "/chat" |
| NotificationsPage.FindIndex | static/js/components/notifications/notifications.js:88 | the index of the first notification with the id, or -1 exactly when none has it |
| NotificationsPage.UnreadAfterMark | static/js/components/notifications/notifications.js:89-91 | marking one notification read lowers the number of unread ones by one if it was unread, and leaves it otherwise |
| NotificationsPage.MarkedAsWritten | static/js/components/notifications/notifications.js:87-92 | as written: an unknown id changes nothing; a known one is marked read and the count drops by one, not below 0, whether or not it was already read |
| NotificationsPage.ReadAgainDecrements | static/js/components/notifications/notifications.js:89-91 | the page is not rendered again, so a notification can be marked twice: with two unread notifications and a count of 2, marking the first twice leaves a count of 0 beside an unread notification |
| NotificationsPage.Marked | static/js/components/notifications/notifications.js:87-92 | corrected: the count drops only when the marked notification was unread, and never below 0 |
| NotificationsPage.MarkedKeepsCount | static/js/components/notifications/notifications.js:87-92 | a count that matched the unread notifications still matches after marking |
| NotificationsPage.MarkedIdempotent | static/js/components/notifications/notifications.js:87-92 | marking the same id twice leaves what marking once leaves |
| NotificationsPage.NotificationsComponent.constructor | static/js/components/notifications/notifications.js:10-16 | no notifications, a count of 0, and the current user's id |
| NotificationsPage.NotificationsComponent.MarkAsReadAsWritten | static/js/components/notifications/notifications.js:78-102 | as written: false with nothing changed when the server refuses; otherwise the state MarkedAsWritten gives |
| NotificationsPage.NotificationsComponent.MarkAsRead | static/js/components/notifications/notifications.js:78-102 | corrected: the state Marked gives, so the count keeps matching the unread notifications |
| NotificationsPage.NotificationsComponent.GetNotificationLink | static/js/components/notifications/notifications.js:153-166 | likes, comments and mentions link to the post, follows to the actor's profile, messages to the chat between the current user and the actor, others to "/" |
| NotificationsPage.Phrase | static/js/components/notifications/notifications.js:131-146 | each of the five known types has its own phrase, and every other type the generic one |
| NotificationsPage.MessagesAgreeWithToast | static/js/components/notifications/notifications.js:131-146 | for a named actor and a type both know, the page's and the toast's FormatNotificationMessage print the same message, the toast adding "just now"; a missing name prints "undefined" where the toast says "Someone" |
| NotificationsPage.LinksAgreeWithToast | static/js/components/notifications/notifications.js:153-166 | the page and the toast agree on a post link with a post id and on a chat link with both ids; without the post id the page links to "/?id=undefined" where the toast goes home |
| EditPost.EscapeHtml | static/js/components/posts/edit_post.js:87-95 | a non-string escapes to "" |
| EditPost.EscapeChar | static/js/components/posts/edit_post.js:90-94 | each of & < > " ' becomes an entity starting with '&' and containing no other '&'; every other character is kept |
| EditPost.Escaped | static/js/components/posts/edit_post.js:87-95 | escaping never shortens the text |
| EditPost.ReplaceAllAppend | static/js/components/posts/edit_post.js:89-94 | the chain of five replace-all calls distributes over concatenation (no pattern spans a join, since '&' is replaced first) |
| EditPost.ReplaceAllChar | static/js/components/posts/edit_post.js:89-94 | on one character the chain of replace-all calls gives that character's entity |
| EditPost.EscapeHtmlIsEscaped | static/js/components/posts/edit_post.js:87-95 | the replace-all chain equals escaping character by character |
| EditPost.EscapedHasNoMarkup | static/js/components/posts/edit_post.js:87-95 | escaped text contains no < > " or ' , so it cannot close the attribute or the textarea it is placed in |
| EditPost.EveryAmpersandIsEntity | static/js/components/posts/edit_post.js:87-95 | every '&' in escaped text begins one of the five entities |
| EditPost.Unescaped | static/js/components/posts/edit_post.js:51-56 | decoding the entities never lengthens the text |
| EditPost.EscapeRoundTrip | static/js/components/posts/edit_post.js:51-56 | decoding the escaped title or content as HTML character references gives back exactly the original text; the browser's form-control value handling is not part of this (see Left out) |
| EditPost.PlainUnchanged | static/js/components/posts/edit_post.js:87-95 | text without special characters is left unchanged |
| EditPost.PreviousPath | static/js/components/posts/edit_post.js:6 | the referrer when there is one, "/" otherwise; never empty |
| EditPost.HandleSubmit | static/js/components/posts/edit_post.js:110-159 | an empty title or content is refused before any request; a failed or unsuccessful response shows the server's error or the default text; success goes back to the post exactly when the previous path contains "?id=" and the post id, and home otherwise |
| EditPost.BackToPost | static/js/components/posts/edit_post.js:144-147 | coming from the post's own page, a successful edit returns to that post |
| EditPost.LongerIdAlsoMatches | static/js/components/posts/edit_post.js:146 | the containment test also matches a longer id: editing post 1 after viewing post 12 returns to post 1 |
| AppRouter.Location | static/js/app.js:335-336 | a URL without '?' is all pathname; otherwise the pathname has no '?' and pathname + search gives the URL back, the search starting with '?' and never being a bare '?' |
| AppRouter.Lookup | static/js/app.js:337-340 | URLSearchParams.get: nothing exactly when no non-empty piece has the name; otherwise the value of a piece with that name, the first such piece by LookupFirst |
| AppRouter.LookupFirst | static/js/app.js:337-340 | when piece k is the first with the name, get returns piece k's value, whatever later pieces say |
| AppRouter.OneParam | static/js/app.js:337-340 | a one-parameter query gives its value back |
| AppRouter.TwoParams | static/js/app.js:178-179 | in a two-parameter query each distinct name gives its own value |
| AppRouter.IsAuthPage | static/js/app.js:93-95 | exactly /signin and /signup are auth pages |
| AppRouter.ShowsNavigation | static/js/app.js:345-348 | the navbar and side panels show on every page but /signin and /signup |
| AppRouter.HandleRoute | static/js/app.js:334-404 | /profile passes the id; /edit-post and /category without their parameter go home, otherwise pass it; "/" with an id opens the post, without one the posts; the auth pages and /chat get their entries; any path no router key names falls back to "/" |
| AppRouter.Resolve | static/js/app.js:96-330 | a signed-out visitor is sent to /signin from every page but the auth pages, and a signed-in one home from those; a signed-in visitor gets the posts, the post or the edit form the route names |
| AppRouter.ChatEntry | static/js/app.js:169-199 | without both user1 and user2 the chat goes home; it opens only for a signed-in user who is one of the two, with the other as partner, and goes home for anyone else |
| AppRouter.LocationOf | static/js/app.js:335-336 | a pathname without '?' followed by a search is split back into the two |
| AppRouter.PostLinkOpensPost | static/js/app.js:390-393 | signed in, "/?id=" + id opens that post |
| AppRouter.ChatLink | static/js/app.js:178-179 | a chat link is routed to /chat with user1 and user2 read back unchanged |
| AppRouter.OpenChatLocation | static/js/app.js:169-199 | a location routed to /chat opens what the chat entry decides |
| AppRouter.ChatEntryOf | static/js/app.js:186-196 | user1 signed in opens the chat with user2; a third user goes home |
| AppRouter.ChatLinkOpensChat | static/js/app.js:169-199 | the chat link a message toast builds opens the chat for its first user with the second |
| AppRouter.MessageToastOpensChat | static/js/notification-handler.js:214-218 | a message toast's link opens the chat between the signed-in user and the sender |
| AppRouter.PostToastOpensPost | static/js/notification-handler.js:206-213 | a like or comment toast's link opens the post, once signed in |
| AppRouter.StrangerChatLinkGoesHome | static/js/app.js:186-189 | a user who is neither party of a chat link is sent home |
| AppRouter.HandlePostClick | static/js/app.js:1259-1283 | a click navigates to "/?id=" + the post id exactly when it finds a non-empty id |
| AppRouter.ClickOpensPost | static/js/app.js:1259-1283 | clicking a post opens that post |
| AppRouter.FallbackPreview | static/js/app.js:1002-1007 | the content, or 'No content' when there is none, cut to 100 characters and marked with "..." when longer |
| AppRouter.Browser.constructor | static/js/app.js:335-336 | the location of the starting URL and no pushed entries |
| AppRouter.Browser.NavigateTo | static/js/app.js:71-84 | the current location is routed again without a history entry; any other path is pushed and becomes the location; the route is then chosen from the new location |
| PostsView.OfCategory | static/js/components/posts/posts.js:43-49 | a post is kept exactly when it is listed and has a category named the filter under Name or name; never more posts than given |
| PostsView.OfCategoryAppend | static/js/components/posts/posts.js:43-49 | the filter works post by post: it distributes over concatenation, so the original order is kept |
| PostsView.OfCategoryIdempotent | static/js/components/posts/posts.js:43-49 | filtering a filtered list again changes nothing |
| PostsView.FilteredPosts | static/js/components/posts/posts.js:43-50 | no filter or an empty one shows every post; otherwise the posts of that category |
| PostsView.Preview | static/js/components/posts/posts.js:159-160 | content within the limit is shown whole; longer content is cut to the limit and marked with "...", three characters more than the limit |
| PostsView.PreviewPrefix | static/js/components/posts/posts.js:159-160 | a cut preview begins with the first characters of the content and ends in "..." |
| PostsView.IsAuthor | static/js/components/posts/posts.js:102-162 | Edit and Delete show exactly to a signed-in viewer whose id is strictly the author id, never to a signed-out one |
| PostsView.CardOf | static/js/components/posts/posts.js:98-162 | a card carries the post's ID or id, the 150-character preview of Content, content or 'No content', and the author check |
| PostsView.Cards | static/js/components/posts/posts.js:93 | one card per post, in order |
| PostsView.RenderPosts | static/js/components/posts/posts.js:38-60 | the empty state exactly when the filter leaves no post; otherwise one card per remaining post, in order, and none marked as the viewer's when signed out |
| PostsView.AuthorlessPost | static/js/components/posts/posts.js:102-162 | a post with no author id under any spelling shows Edit and Delete to a signed-in viewer whose id is "" |
| JsValues.Or | static/js/components/posts/posts.js:98-108 | `a || b`: a when truthy, b otherwise; truthy exactly when one of them is |
| JsValues.Render | static/js/components/posts/posts.js:177 | a template literal prints a string as it is and prints "" for nothing but the empty string |
| JsValues.UpperAscii | static/js/notification-handler.js:69 | on a lower-case ASCII letter, its capital; every other character is kept, unlike toUpperCase (see Left out) |

## Left out

- SQL execution and the schema: every query is replaced by the rows it returns or by a table
  held in a class. Each statement that can fail has a fault flag (`HubFault`, `UpdateFault`,
  the `Option` results).
- Concurrency is not modelled: goroutines, `sync.Mutex`/`RWMutex` and the `time.Sleep` between
  broadcasts. Each locked section and each goroutine body is one atomic method, so
  interleavings of them are not.
- Transport is not modelled: the websocket upgrade, `ReadMessage`/`WriteMessage`, HTTP
  response writing and JSON encoding and decoding. A write appends to an outbox or fails; a
  received frame is the value JSON decoding gives.
- bcrypt, `GenerateId` (UUID generation) and crypto/rand session tokens are opaque library
  calls. Ids, hashes and tokens are inputs.
- `time.Now`, time parsing and formatting, and JavaScript's `Date` are inputs; durations are
  integers of nanoseconds. The "Jan 2, 2006" rendering that FormatTimeAgo returns from 30 days
  on is an input.
- `Duration.Minutes()` and `Hours()` return floats in Go. The model takes integer division of
  the nanosecond count. For the positive ages of those branches this is what `int(...)`
  truncation gives.
- Unicode classes: `unicode.IsLetter`, `IsDigit`, `IsLower`, `IsUpper`, `IsPunct` and
  `IsSymbol` are exact on ASCII. Every other character counts as none of them.
- Strings are sequences of Unicode scalars. JavaScript's UTF-16 code units (for `substring`,
  `charAt` and `length`) are taken to be characters. Query strings are not percent-decoded.
- The regex engine is not modelled. The patterns of utils/validation.go are written out as
  predicates.
- Rendering and browser state are left out: templates, RenderErrorPage, innerHTML, toasts and
  their animations, alerts, fetch, localStorage and history. Their inputs and the choices made
  from them are modelled; the HTML is not.
- NotificationsComponent.fetchNotifications is left out: it fills the page with fixed
  demonstration data and reads the navbar dot with `parseInt`.
- Resetting the layout and the component clean-up are left out. They are DOM work that
  navigateTo does before routing (app.js:28-66), and `AppRouter.Browser.NavigateTo` models
  only the history and the route.
- The router's `'post'` entry is modelled in `AppRouter.HandleRoute` but is unreachable as a
  path, since every pathname begins with '/'. handleRoute calls `router.post` directly for
  "/" with an id.
- SetSessionCookie, ClearSessionCookie and GetSessionFromRequest are left out
  (utils/session.go:40-71). They only set and read cookies around GetSession.
- GetNewMessagesHandler is left out (authentication/chat_handler.go:123-166). It is a single
  query over an id from the request, with no rule beyond its error paths.
- The remaining handlers of api_handler.go and post_handler.go are left out. They fetch, render
  or decode and then call the modelled operations: listing, single post, comments, users,
  profile, stats, login, register, signout and session.
- The thin handlers and the entry point are left out, as HTTP plumbing over SQL, bcrypt or
  cookies: signin, signup, signout, chat_users_handler, user_status, sessions.go, error.go and
  main.go. So are the client components that only render or fetch.
- The unchecked type assertions in chat frames (authentication/chat_websocket.go:100-103) panic
  on a missing field. The model requires well-formed fields instead
  (`ChatSocket.MessageFieldsPresent`).
- The order of Go map iteration is unspecified. The model takes the first-seen order of the
  rows, one of the orders Go can produce, so results that hold for every order are proved only
  for this one.
- ApiHandler.CookiePreview: restricted to cookie values of ASCII characters. Go slices the
  value's bytes (`value[:10]`), and bytes and characters coincide only on ASCII. net/http
  delivers only printable-ASCII cookie values, so no value the handler sees is excluded.
- ChatHandler.GetChatHistory: reads the page at the corrected `ChatHandler.Offset`, so it does
  not reproduce the as-written wrap-around. For a page and limit whose product overflows int64,
  the code sends a negative OFFSET to SQLite. The model instead reads a page at a non-negative
  offset. `ChatHandler.OffsetAsWritten` and `ChatHandler.NegativeOffsetAsWritten` state the
  as-written value (see Findings).
- JsValues.UpperAscii: upper-cases ASCII letters only. JavaScript's `toUpperCase` also maps
  other letters ('é' to 'É'), and some of them to more than one character ('ß' to "SS"). For
  such a first letter the code's avatar is not one character, so `NotificationToast.AvatarOf`
  promises a one-character avatar only under this ASCII reading.
- EditPost.EscapeRoundTrip: the round trip is the decoding of HTML character references, not
  the browser's handling of form controls. A textarea drops a newline right after its start
  tag, and an `input type=text` value strips line breaks, so a title or content with such
  newlines does not come back unchanged in the edit form.
- users_list rows that fail to scan (authentication/websocket.go:423-426, skipped with
  `continue`) are not modelled. `RealtimeHub.UsersListing` lists every stored user of the order.
- RealtimeHub.Hub.constructor: the nickname order is an input, required to be the table's
  `ORDER BY nickname ASC` order (`RealtimeHub.NicknameOrder`, byte-wise comparison as SQLite's
  BINARY collation). The query is not executed, and ties between equal nicknames are in
  whatever order the input gives.

## Findings

| source | as written | input that shows it | evidently intended | confidence | as-written member | corrected member |
|---|---|---|---|---|---|---|
| utils/auth.go:24 | `len(username) >= 3 && len(username) <= 30 && hasLetter && hasNumber \|\| hasLetter` groups as `(… && hasNumber) \|\| hasLetter`, so any name with a letter passes | "a" (1 byte) and a name of 31 letters are both accepted | 3 to 30 bytes and at least one letter, as the comment at line 10 documents | not executed; high | Auth.ValidateUsername, Auth.UsernameLengthIgnored | Auth.ValidateUsernameIntended, Auth.UsernameIntendedBounds |
| authentication/websocket.go:117-121 | the deferred clean-up deletes `clients[userID]` whatever connection it holds | user "u" connects (connection 0), connects again (connection 1), then connection 0 closes: "u" is unregistered while connection 1 is open | delete the entry only while it still holds the closing connection | not executed; high | RealtimeHub.Hub.DisconnectAsWritten, RealtimeHub.OlderDisconnectDropsNewer | RealtimeHub.Hub.Disconnect, RealtimeHub.RegistryAfterDisconnect |
| authentication/chat_handler.go:53 | `offset := (page - 1) * limit` in 64-bit arithmetic on any positive page and limit | page=4611686018427387905, limit=2: the product is 2^63 and wraps to -2^63 | a non-negative offset, 0 exactly on the first page | not executed; medium | ChatHandler.OffsetAsWritten, ChatHandler.NegativeOffsetAsWritten | ChatHandler.Offset |
| static/js/components/notifications/notifications.js:88-92 | unreadCount is lowered whenever the id is found, even for a notification already read | notifications 1 and 2 unread with count 2; the page is not rendered again after markAsRead, so the button of 1 stays, and clicking it twice leaves count 0 while 2 is unread | lower the count only when the marked notification was unread | not executed; medium | NotificationsPage.MarkedAsWritten, NotificationsPage.ReadAgainDecrements, NotificationsPage.NotificationsComponent.MarkAsReadAsWritten | NotificationsPage.Marked, NotificationsPage.MarkedKeepsCount, NotificationsPage.NotificationsComponent.MarkAsRead |
