// static/js/app.js: the client-side router. handleRoute's if-chain picks a route from the
// location, the route's handler then decides, from the authentication state and the query,
// which view opens or where to navigate next; navigateTo pushes a history entry unless the
// target is the current location. The DOM, fetches and AuthService are parameters or left
// out; locations carry no fragment and query strings are not percent-decoded.
module AppRouter {
  import opened Wrappers
  import opened Strings
  import opened JsValues
  import PostsView
  import NotificationToast

  // ---------------------------------------------------------------------------------------
  // Locations and query strings

  /** window.location after navigating to url: the pathname, and the search from the first '?' on ("" for a bare '?'). */
  function Location(url: string): (loc: (string, string))
    ensures '?' !in url ==> loc == (url, "")
    ensures loc.1 == "" || (loc.1[0] == '?' && |loc.1| >= 2)
    ensures loc.1 != "" ==> loc.0 + loc.1 == url && '?' !in loc.0
  {
    var i := IndexOf(url, '?');
    if i < 0 then (url, "")
    else if i == |url| - 1 then (url[..i], "")
    else
      assert url[..i] + url[i..] == url;
      (url[..i], url[i..])
  }

  /** The name of a query piece: what precedes its first '='. */
  function PieceName(piece: string): string
  {
    var j := IndexOf(piece, '=');
    if j < 0 then piece else piece[..j]
  }

  /** The value of a query piece: what follows its first '=', "" without one. */
  function PieceValue(piece: string): string
  {
    var j := IndexOf(piece, '=');
    if j < 0 then "" else piece[j + 1..]
  }

  /** No non-empty piece of pieces has that name. */
  predicate NoneNamed(pieces: seq<string>, name: string)
  {
    forall j :: 0 <= j < |pieces| ==> pieces[j] == "" || PieceName(pieces[j]) != name
  }

  /** The value of the first non-empty piece with that name. */
  function Lookup(pieces: seq<string>, name: string): (v: Option<string>)
    ensures v.None? <==> NoneNamed(pieces, name)
    ensures v.Some? ==> exists k :: 0 <= k < |pieces| && pieces[k] != "" && PieceName(pieces[k]) == name
                                                       && PieceValue(pieces[k]) == v.value
  {
    if pieces == [] then None
    else if pieces[0] != "" && PieceName(pieces[0]) == name then Some(PieceValue(pieces[0]))
    else
      var v := Lookup(pieces[1..], name);
      assert forall k :: 1 <= k < |pieces| ==> pieces[k] == pieces[1..][k - 1];
      v
  }

  /** URLSearchParams.get returns the value of the FIRST piece with the name; later ones are ignored. */
  lemma {:induction false} LookupFirst(pieces: seq<string>, name: string, k: int)
    requires 0 <= k < |pieces| && pieces[k] != "" && PieceName(pieces[k]) == name
    requires NoneNamed(pieces[..k], name)
    ensures Lookup(pieces, name) == Some(PieceValue(pieces[k]))
  {
    if k > 0 {
      assert pieces[0] == pieces[..k][0];
      assert pieces[1..][k - 1] == pieces[k];
      var tail := pieces[1..][..k - 1];
      assert NoneNamed(tail, name) by {
        forall j | 0 <= j < |tail| ensures tail[j] == "" || PieceName(tail[j]) != name {
          assert tail[j] == pieces[..k][j + 1];
        }
      }
      LookupFirst(pieces[1..], name, k - 1);
    }
  }

  /** new URLSearchParams(search).get(name): null (None) when no piece has that name. */
  function Param(search: string, name: string): Option<string>
  {
    Lookup(Split(if HasPrefix(search, "?") then search[1..] else search, '&'), name)
  }

  /** A piece "name=value" has that name and value. */
  lemma PieceOf(name: string, value: string)
    requires '=' !in name
    ensures PieceName(name + "=" + value) == name && PieceValue(name + "=" + value) == value
  {
    var p := name + "=" + value;
    assert p[..|name|] == name;
    IndexOfFirst(p, '=', |name|);
    assert p[|name| + 1..] == value;
  }

  /** "?name=value" gives value for name, when value does not contain '&'. */
  lemma OneParam(name: string, value: string)
    requires '=' !in name && '&' !in name && '&' !in value && name != ""
    ensures Param("?" + name + "=" + value, name) == Some(value)
  {
    var s := "?" + name + "=" + value;
    assert s[1..] == name + "=" + value;
    assert HasPrefix(s, "?");
    SplitNoSep(name + "=" + value, '&');
    PieceOf(name, value);
  }

  /** "?a=x&b=y" is the two pieces "a=x" and "b=y". */
  lemma TwoPieces(a: string, x: string, b: string, y: string)
    requires '&' !in a && '&' !in x && '&' !in b && '&' !in y
    ensures var s := "?" + a + "=" + x + "&" + b + "=" + y;
            HasPrefix(s, "?") && Split(s[1..], '&') == [a + "=" + x, b + "=" + y]
  {
    var s := "?" + a + "=" + x + "&" + b + "=" + y;
    assert s[..1] == "?";
    assert s[1..] == (a + "=" + x) + ['&'] + (b + "=" + y);
    SplitConcat(a + "=" + x, b + "=" + y, '&');
    SplitNoSep(a + "=" + x, '&');
    SplitNoSep(b + "=" + y, '&');
  }

  /** "?a=x&b=y" gives x for a and y for b, when a and b differ and neither value contains '&'. */
  lemma TwoParams(a: string, x: string, b: string, y: string)
    requires '=' !in a && '&' !in a && '&' !in x && a != ""
    requires '=' !in b && '&' !in b && '&' !in y && b != "" && a != b
    ensures var s := "?" + a + "=" + x + "&" + b + "=" + y;
            Param(s, a) == Some(x) && Param(s, b) == Some(y)
  {
    TwoPieces(a, x, b, y);
    PieceOf(a, x);
    PieceOf(b, y);
    var pieces := [a + "=" + x, b + "=" + y];
    assert pieces[1..] == [b + "=" + y];
    assert Lookup(pieces, a) == Some(x);
    assert Lookup(pieces[1..], b) == Some(y);
  }

  // ---------------------------------------------------------------------------------------
  // handleRoute

  /** isAuthPage: only the sign-in and sign-up pages. */
  function IsAuthPage(path: string): (auth: bool)
    ensures auth <==> path in {"/signin", "/signup"}
  {
    path == "/signin" || path == "/signup"
  }

  /** toggleNavigationElements(!isAuthPage(path)): the navbar and both side panels show except on auth pages. */
  function ShowsNavigation(path: string): (show: bool)
    ensures show <==> path != "/signin" && path != "/signup"
  {
    !IsAuthPage(path)
  }

  /** The router entry handleRoute calls, with its argument; RedirectHome is its own navigateTo('/'). */
  datatype Dispatch =
    | ProfileRoute(id: Option<string>)
    | EditPostRoute(postId: string)
    | NotificationsRoute
    | CategoryRoute(categoryName: string)
    | CreatedRoute
    | LikedRoute
    | CommentedRoute
    | PostRoute(id: Option<string>)
    | SignInRoute
    | SignUpRoute
    | ChatRoute
    | CreateRoute
    | HomeRoute
    | RedirectHome

  predicate Present(v: Option<string>) { v.Some? && v.value != "" }

  /** The paths the router object has an entry for. */
  const RouterKeys: set<string> :=
    {"/", "/profile", "/category", "/created", "/chat", "/liked", "/commented", "/create", "/edit-post", "post",
     "/signin", "/signup", "/notifications"}

  /**
   * handleRoute: the explicit checks in order (profile, edit-post, notifications, category,
   * created, liked, commented, a post id on "/", the auth pages), then any other router key,
   * and "/" for everything else.
   */
  function HandleRoute(path: string, search: string): (d: Dispatch)
    ensures path == "/profile" ==> d == ProfileRoute(Param(search, "id"))
    ensures path == "/edit-post" ==>
              (d == RedirectHome <==> !Present(Param(search, "id")))
              && (d != RedirectHome ==> d == EditPostRoute(Param(search, "id").value))
    ensures path == "/category" ==>
              (d == RedirectHome <==> !Present(Param(search, "name")))
              && (d != RedirectHome ==> d == CategoryRoute(Param(search, "name").value))
    ensures d == RedirectHome ==> path in {"/edit-post", "/category"}
    ensures path == "/" && Present(Param(search, "id")) ==> d == PostRoute(Param(search, "id"))
    ensures path == "/" && !Present(Param(search, "id")) ==> d == HomeRoute
    ensures path == "/signin" ==> d == SignInRoute
    ensures path == "/signup" ==> d == SignUpRoute
    ensures path == "/chat" ==> d == ChatRoute
    ensures path !in RouterKeys ==> d == HomeRoute
  {
    var id := Param(search, "id");
    var categoryName := Param(search, "name");
    if path == "/profile" then ProfileRoute(id)
    else if path == "/edit-post" then (if !Present(id) then RedirectHome else EditPostRoute(id.value))
    else if path == "/notifications" then NotificationsRoute
    else if path == "/category" then (if !Present(categoryName) then RedirectHome else CategoryRoute(categoryName.value))
    else if path == "/created" then CreatedRoute
    else if path == "/liked" then LikedRoute
    else if path == "/commented" then CommentedRoute
    else if path == "/" && Present(id) then PostRoute(id)
    else if path == "/signin" then SignInRoute
    else if path == "/signup" then SignUpRoute
    else if path == "/chat" then ChatRoute
    else if path == "/create" then CreateRoute
    else if path == "post" then PostRoute(None)
    else HomeRoute
  }

  // ---------------------------------------------------------------------------------------
  // Route handlers

  /** What a route handler ends in: a further navigation, or the component it mounts. */
  datatype View =
    | GoTo(path: string)
    | ProfileView(profileId: string)
    | EditPostView(postId: string)
    | NotificationsView
    | CategoryView(categoryName: string)
    | CreatedView(userId: Option<string>)
    | LikedView(userId: Option<string>)
    | CommentedView(userId: Option<string>)
    | SinglePostView(id: Option<string>)
    | AuthView(mode: string)
    | ChatView(currentUser: string, partner: string)
    | CreateView
    | PostsView
    | Crashed   // currentUser.id read on a null user: the handler throws and nothing is mounted

  /**
   * The router entries, once AuthService.checkAuthState() has resolved to isAuth: every page
   * but the auth pages sends a signed-out visitor to /signin, and the auth pages send a
   * signed-in one home. currentUser is AuthService.getCurrentUser(), None for null, and its id.
   */
  function Resolve(d: Dispatch, search: string, isAuth: bool, currentUser: Option<JsValue>): (v: View)
    ensures d == RedirectHome ==> v == GoTo("/")
    ensures d in {SignInRoute, SignUpRoute} ==> (v == GoTo("/") <==> isAuth)
    ensures d !in {SignInRoute, SignUpRoute, RedirectHome} && !isAuth ==> v == GoTo("/signin")
    ensures v == GoTo("/signin") ==> !isAuth
    ensures d == HomeRoute && isAuth ==> v == PostsView
    ensures d.PostRoute? && isAuth ==> v == SinglePostView(d.id)
    ensures d.EditPostRoute? && isAuth ==> v == EditPostView(d.postId)
  {
    match d
    case RedirectHome => GoTo("/")
    case SignInRoute => if isAuth then GoTo("/") else AuthView("signin")
    case SignUpRoute => if isAuth then GoTo("/") else AuthView("signup")
    case ProfileRoute(id) =>
      var profileId := if Present(id) then Str(id.value) else if currentUser.Some? then currentUser.value else Null;
      SignedIn(isAuth, if !Truthy(profileId) then GoTo("/") else ProfileView(Render(profileId)))
    case EditPostRoute(id) => SignedIn(isAuth, EditPostView(id))
    case NotificationsRoute => SignedIn(isAuth, NotificationsView)
    case CategoryRoute(name) => SignedIn(isAuth, CategoryView(name))
    case CreatedRoute => SignedIn(isAuth, CreatedView(Param(search, "user_id")))
    case LikedRoute => SignedIn(isAuth, LikedView(Param(search, "user_id")))
    case CommentedRoute => SignedIn(isAuth, CommentedView(Param(search, "user_id")))
    case PostRoute(id) => SignedIn(isAuth, SinglePostView(id))
    case CreateRoute => SignedIn(isAuth, CreateView)
    case HomeRoute => SignedIn(isAuth, PostsView)
    case ChatRoute => SignedIn(isAuth, ChatEntry(search, currentUser))
  }

  /** checkAuthState's guard: a signed-out visitor goes to /signin instead. */
  function SignedIn(isAuth: bool, v: View): View
  {
    if isAuth then v else GoTo("/signin")
  }

  /**
   * The '/chat' entry: both user1 and user2 must be present and the signed-in user must be one of
   * them; the chat opens with the other one.
   */
  function ChatEntry(search: string, currentUser: Option<JsValue>): (v: View)
    ensures !Present(Param(search, "user1")) || !Present(Param(search, "user2")) ==> v == GoTo("/")
    ensures v.ChatView? ==>
              var u1 := Param(search, "user1").value;
              var u2 := Param(search, "user2").value;
              && currentUser == Some(Str(v.currentUser))
              && (v.currentUser == u1 || v.currentUser == u2)
              && (v.currentUser == u1 ==> v.partner == u2)
              && (v.currentUser != u1 ==> v.partner == u1)
    ensures (Present(Param(search, "user1")) && Present(Param(search, "user2")) && currentUser.Some?
             && currentUser.value != Str(Param(search, "user1").value)
             && currentUser.value != Str(Param(search, "user2").value)) ==> v == GoTo("/")
    ensures v in {GoTo("/"), Crashed} || v.ChatView?
  {
    var user1 := Param(search, "user1");
    var user2 := Param(search, "user2");
    if !Present(user1) || !Present(user2) then GoTo("/")
    else if currentUser.None? then Crashed
    else if currentUser.value != Str(user1.value) && currentUser.value != Str(user2.value) then GoTo("/")
    else
      var me := user1.value;
      if currentUser.value == Str(me) then ChatView(me, user2.value) else ChatView(user2.value, user1.value)
  }

  /** Opening a location: the view its route handler ends in. */
  function Open(url: string, isAuth: bool, currentUser: Option<JsValue>): View
  {
    var loc := Location(url);
    Resolve(HandleRoute(loc.0, loc.1), loc.1, isAuth, currentUser)
  }

  // ---------------------------------------------------------------------------------------
  // Links into the router

  /** A pathname without '?' followed by a search is split back into the two. */
  lemma LocationOf(pathname: string, search: string)
    requires '?' !in pathname && |search| >= 2 && search[0] == '?'
    ensures Location(pathname + search) == (pathname, search)
  {
    var url := pathname + search;
    assert url[|pathname|] == '?';
    assert url[..|pathname|] == pathname;
    IndexOfFirst(url, '?', |pathname|);
    assert url[|pathname|..] == search;
  }

  lemma PostLocation(id: string)
    ensures Location("/?id=" + id) == ("/", "?id=" + id)
  {
    assert "/" + ("?id=" + id) == "/?id=" + id;
    LocationOf("/", "?id=" + id);
  }

  lemma PostParam(id: string)
    requires '&' !in id
    ensures Param("?id=" + id, "id") == Some(id)
  {
    assert "?" + "id" + "=" + id == "?id=" + id;
    OneParam("id", id);
  }

  /** A post link "/?id=<id>" opens that post for a signed-in user. */
  lemma PostLinkOpensPost(id: string, currentUser: Option<JsValue>)
    requires id != "" && '&' !in id
    ensures Location("/?id=" + id) == ("/", "?id=" + id)
    ensures Open("/?id=" + id, true, currentUser) == SinglePostView(Some(id))
  {
    PostLocation(id);
    PostParam(id);
    assert HandleRoute("/", "?id=" + id) == PostRoute(Some(id));
  }

  lemma ChatLocation(c: string, x: string)
    ensures Location("/chat?user1=" + c + "&user2=" + x) == ("/chat", "?user1=" + c + "&user2=" + x)
  {
    var search := "?user1=" + c + "&user2=" + x;
    assert "/chat" + search == "/chat?user1=" + c + "&user2=" + x;
    LocationOf("/chat", search);
  }

  lemma ChatParams(c: string, x: string)
    requires '&' !in c && '&' !in x
    ensures Param("?user1=" + c + "&user2=" + x, "user1") == Some(c)
    ensures Param("?user1=" + c + "&user2=" + x, "user2") == Some(x)
  {
    assert "?" + "user1" + "=" + c + "&" + "user2" + "=" + x == "?user1=" + c + "&user2=" + x;
    TwoParams("user1", c, "user2", x);
  }

  /** The parameters of the chat link "/chat?user1=<c>&user2=<x>". */
  lemma ChatLink(c: string, x: string)
    requires '&' !in c && '&' !in x
    ensures var search := "?user1=" + c + "&user2=" + x;
            && Location("/chat?user1=" + c + "&user2=" + x) == ("/chat", search)
            && Param(search, "user1") == Some(c) && Param(search, "user2") == Some(x)
  {
    ChatLocation(c, x);
    ChatParams(c, x);
  }

  /** A "/chat" location is resolved by ChatEntry for a signed-in user. */
  lemma OpenChatLocation(url: string, search: string, currentUser: Option<JsValue>)
    requires Location(url) == ("/chat", search)
    ensures Open(url, true, currentUser) == ChatEntry(search, currentUser)
  {
    assert HandleRoute("/chat", search) == ChatRoute;
  }

  /** With user1 = c and user2 = x, c chats with x, and anyone else is sent home. */
  lemma ChatEntryOf(search: string, c: string, x: string, currentUser: string)
    requires c != "" && x != "" && Param(search, "user1") == Some(c) && Param(search, "user2") == Some(x)
    ensures currentUser == c ==> ChatEntry(search, Some(Str(currentUser))) == ChatView(c, x)
    ensures currentUser != c && currentUser != x ==> ChatEntry(search, Some(Str(currentUser))) == GoTo("/")
  {
  }

  /** The chat link "/chat?user1=<c>&user2=<x>" opened by c starts the chat with x. */
  lemma ChatLinkOpensChat(c: string, x: string)
    requires c != "" && x != "" && '&' !in c && '&' !in x
    ensures Open("/chat?user1=" + c + "&user2=" + x, true, Some(Str(c))) == ChatView(c, x)
  {
    var url, search := "/chat?user1=" + c + "&user2=" + x, "?user1=" + c + "&user2=" + x;
    ChatLink(c, x);
    OpenChatLocation(url, search, Some(Str(c)));
    ChatEntryOf(search, c, x, c);
  }

  /** The toast's View button for a message from x, clicked by c, opens the chat with x. */
  lemma MessageToastOpensChat(n: NotificationToast.ToastNotification, c: string, x: string)
    requires n.kind == Some("message") && n.actorID == Str(x)
    requires c != "" && x != "" && '&' !in c && '&' !in x
    ensures NotificationToast.GetNotificationLink(n, Some(c)) == "/chat?user1=" + c + "&user2=" + x
    ensures Open(NotificationToast.GetNotificationLink(n, Some(c)), true, Some(Str(c))) == ChatView(c, x)
  {
    ChatLinkOpensChat(c, x);
  }

  /** The toast's View button for a like or comment on post p opens that post. */
  lemma PostToastOpensPost(n: NotificationToast.ToastNotification, p: string, currentUserId: Option<string>)
    requires n.kind in {Some("like"), Some("comment")} && n.postID == Str(p) && p != "" && '&' !in p
    ensures Open(NotificationToast.GetNotificationLink(n, currentUserId), true, None) == SinglePostView(Some(p))
  {
    PostLinkOpensPost(p, None);
  }

  /** A chat link opened by someone who is neither of its two users is sent home. */
  lemma StrangerChatLinkGoesHome(c: string, x: string, stranger: string)
    requires c != "" && x != "" && '&' !in c && '&' !in x && stranger != c && stranger != x
    ensures Open("/chat?user1=" + c + "&user2=" + x, true, Some(Str(stranger))) == GoTo("/")
  {
    var url, search := "/chat?user1=" + c + "&user2=" + x, "?user1=" + c + "&user2=" + x;
    ChatLink(c, x);
    OpenChatLocation(url, search, Some(Str(stranger)));
    ChatEntryOf(search, c, x, stranger);
  }

  // ---------------------------------------------------------------------------------------
  // Post clicks and previews

  /** handlePostClick's argument: a post id string, or a click event on an element inside a card or not. */
  datatype PostClick = IdClick(postId: string) | CardClick(cardPostId: Option<string>)

  /** handlePostClick: where it navigates, if anywhere. */
  function HandlePostClick(click: PostClick): (target: Option<string>)
    ensures click.IdClick? ==> (target.Some? <==> click.postId != "")
    ensures click.CardClick? ==> (target.Some? <==> click.cardPostId.Some? && click.cardPostId.value != "")
    ensures target.Some? ==>
              target.value == "/?id=" + (if click.IdClick? then click.postId else click.cardPostId.value)
  {
    var postId := if click.IdClick? then click.postId
                  else if click.cardPostId.Some? then click.cardPostId.value else "";
    if postId == "" then None else Some("/?id=" + postId)
  }

  /** Clicking a post whose id has no '&' opens that post. */
  lemma ClickOpensPost(id: string)
    requires id != "" && '&' !in id
    ensures Open(HandlePostClick(IdClick(id)).value, true, None) == SinglePostView(Some(id))
  {
    PostLinkOpensPost(id, None);
  }

  const FallbackPreviewLength: nat := 100

  /** showProperPostsState's preview: the content (or 'No content') cut to 100 characters. */
  function FallbackPreview(content: JsValue, contentLower: JsValue): (r: string)
    ensures var c := Render(Or(content, Or(contentLower, Str("No content"))));
            (|c| <= 100 ==> r == c) && (|c| > 100 ==> r == c[..100] + "...")
    ensures !Truthy(content) && !Truthy(contentLower) ==> r == "No content"
  {
    PostsView.Preview(Render(Or(content, Or(contentLower, Str("No content")))), FallbackPreviewLength)
  }

  // ---------------------------------------------------------------------------------------
  // navigateTo

  /** window.location and the entries pushState added to the history. */
  class Browser {
    var pathname: string
    var search: string
    var pushed: seq<string>

    constructor (url: string)
      ensures (pathname, search) == Location(url) && pushed == []
    {
      var loc := Location(url);
      pathname, search := loc.0, loc.1;
      pushed := [];
    }

    /**
     * navigateTo: a path equal to pathname + search is routed again without a history entry;
     * any other path is pushed and becomes the location. Either way handleRoute runs on the
     * location that results; its choice is returned.
     */
    method NavigateTo(path: string) returns (d: Dispatch)
      modifies this
      ensures path == old(pathname) + old(search) ==>
                pushed == old(pushed) && pathname == old(pathname) && search == old(search)
      ensures path != old(pathname) + old(search) ==>
                pushed == old(pushed) + [path] && (pathname, search) == Location(path)
      ensures d == HandleRoute(pathname, search)
    {
      if path != pathname + search {
        pushed := pushed + [path];
        var loc := Location(path);
        pathname, search := loc.0, loc.1;
      }
      d := HandleRoute(pathname, search);
    }
  }
}
