// controllers/api_handler.go: the route table of ServeHTTP with its checkAuth gate, the
// cookie preview checkAuth logs, post creation with its category de-duplication loop, the
// reaction toggle that reports userReaction, and the guard order of post edit and delete.
module ApiHandler {
  import opened Wrappers
  import opened Strings
  import opened ForumDb

  // ---------------------------------------------------------------------------------------
  // ServeHTTP

  /** The routes that run checkAuth before their handler. */
  const ProtectedPaths: set<string> := {
    "/api/posts/create", "/api/posts/react", "/api/posts/comment", "/api/posts/edit",
    "/api/posts/created", "/api/posts/liked", "/api/posts/commented", "/api/posts/delete",
    "/api/comments/edit", "/api/comments/delete"
  }

  /** The routes dispatched without authentication, whatever the method. */
  const OpenPaths: set<string> := {
    "/api/posts", "/api/posts/single", "/api/users", "/api/posts/filter", "/api/posts/category",
    "/api/user-status", "/api/validate-session", "/login", "/register", "/signout", "/api/users/stats"
  }

  /** The two routes that answer only one method and otherwise write nothing. */
  const MethodPaths: map<string, string> := map["/api/users/profile" := "GET", "/api/users/profile-pic" := "POST"]

  datatype ApiOutcome = Preflight | Handled(path: string) | Unauthorized | NotFound | EmptyResponse

  /**
   * ServeHTTP for the request method verb: OPTIONS is answered 200 first; then the path switch. authed is whether
   * checkAuth accepts the request; it is consulted only on the protected routes.
   */
  function ServeHTTP(verb: string, path: string, authed: bool): (o: ApiOutcome)
    ensures verb == "OPTIONS" <==> o == Preflight
    ensures o.Handled? ==> o.path == path
  {
    if verb == "OPTIONS" then Preflight
    else if path == "/api/posts" || path == "/api/posts/single" || path == "/api/users"
         || path == "/api/posts/filter" || path == "/api/posts/category" then Handled(path)
    else if path == "/api/posts/create" || path == "/api/posts/react" then
      if authed then Handled(path) else Unauthorized
    else if path == "/api/user-status" || path == "/api/validate-session" then Handled(path)
    else if path == "/api/posts/comment" || path == "/api/posts/edit" || path == "/api/posts/created"
         || path == "/api/posts/liked" || path == "/api/posts/commented" || path == "/api/posts/delete"
         || path == "/api/comments/edit" then
      if authed then Handled(path) else Unauthorized
    else if path == "/login" || path == "/register" || path == "/signout" then Handled(path)
    else if path == "/api/comments/delete" then
      if authed then Handled(path) else Unauthorized
    else if path == "/api/users/profile" then
      if verb == "GET" then Handled(path) else EmptyResponse
    else if path == "/api/users/profile-pic" then
      if verb == "POST" then Handled(path) else EmptyResponse
    else if path == "/api/users/stats" then Handled(path)
    else NotFound
  }

  /** A protected route runs its handler only when checkAuth accepts, and answers 401 otherwise. */
  lemma ProtectedRoutes(verb: string, path: string, authed: bool)
    requires verb != "OPTIONS" && path in ProtectedPaths
    ensures ServeHTTP(verb, path, authed) == if authed then Handled(path) else Unauthorized
  {
  }

  /** An open route runs its handler whatever checkAuth would say. */
  lemma OpenRoutes(verb: string, path: string, authed: bool)
    requires verb != "OPTIONS" && path in OpenPaths
    ensures ServeHTTP(verb, path, authed) == Handled(path)
  {
  }

  /** The profile routes answer their one method and write nothing for any other. */
  lemma MethodRoutes(verb: string, path: string, authed: bool)
    requires verb != "OPTIONS" && path in MethodPaths
    ensures ServeHTTP(verb, path, authed) == if verb == MethodPaths[path] then Handled(path) else EmptyResponse
  {
  }

  /** Any other path is 404. */
  lemma UnknownRoutes(verb: string, path: string, authed: bool)
    requires verb != "OPTIONS" && path !in ProtectedPaths && path !in OpenPaths && path !in MethodPaths
    ensures ServeHTTP(verb, path, authed) == NotFound
  {
  }

  // ---------------------------------------------------------------------------------------
  // checkAuth

  datatype AuthResult = NoCookie | InvalidSession | Authenticated(userId: string)

  /**
   * checkAuth: the session_token cookie (None when absent) is looked up in sessions, the table
   * ValidateSession consults; both failures answer 401.
   */
  function CheckAuth(cookie: Option<string>, sessions: map<string, string>): (r: AuthResult)
    ensures r == NoCookie <==> cookie.None?
    ensures r.Authenticated? <==> cookie.Some? && cookie.value in sessions
    ensures r.Authenticated? ==> r.userId == sessions[cookie.value]
  {
    if cookie.None? then NoCookie
    else if cookie.value !in sessions then InvalidSession
    else Authenticated(sessions[cookie.value])
  }

  /**
   * The logged form of the cookie: its first 10 bytes and "..." when longer than 10. net/http
   * only delivers cookie values of printable ASCII, so bytes and characters coincide.
   */
  function CookiePreview(value: string): (p: string)
    requires AllAscii(value)
    ensures Utf8Len(value) <= 10 ==> p == value
    ensures Utf8Len(value) > 10 ==> |p| == 13 && p[..10] == value[..10] && p[10..] == "..."
  {
    if Utf8Len(value) > 10 then value[..10] + "..." else value
  }

  // ---------------------------------------------------------------------------------------
  // handleCreatePost

  /** The names in order of first occurrence, repeats dropped. */
  function FirstOccurrences(names: seq<string>): seq<string>
  {
    if names == [] then []
    else
      var prefix := FirstOccurrences(names[..|names| - 1]);
      var last := names[|names| - 1];
      if last in names[..|names| - 1] then prefix else prefix + [last]
  }

  /** FirstOccurrences keeps every name once: the same names, none twice. */
  lemma {:induction false} FirstOccurrencesDistinct(names: seq<string>)
    ensures forall i, j :: 0 <= i < j < |FirstOccurrences(names)| ==> FirstOccurrences(names)[i] != FirstOccurrences(names)[j]
    ensures forall n :: n in FirstOccurrences(names) <==> n in names
  {
    if names != [] {
      var prefix := names[..|names| - 1];
      FirstOccurrencesDistinct(prefix);
      assert names == prefix + [names[|names| - 1]];
    }
  }

  /**
   * The processedCategories loop: each name is looked up once, in order of first occurrence;
   * the first name not in the catalog ends the request.
   */
  method ProcessCategories(categories: seq<string>, catalog: map<string, int>) returns (r: Result<seq<int>, string>)
    ensures r.Ok? <==> forall k :: 0 <= k < |categories| ==> categories[k] in catalog
    ensures r.Ok? ==> |r.value| == |FirstOccurrences(categories)|
                      && forall k :: 0 <= k < |r.value| ==>
                           FirstOccurrences(categories)[k] in catalog && r.value[k] == catalog[FirstOccurrences(categories)[k]]
    ensures r.Err? ==> exists k :: 0 <= k < |categories| && categories[k] == r.error && r.error !in catalog
                                   && forall j :: 0 <= j < k ==> categories[j] in catalog
  {
    var processed: set<string> := {};
    var ids: seq<int> := [];
    var i := 0;
    while i < |categories|
      invariant 0 <= i <= |categories|
      invariant forall k :: 0 <= k < i ==> categories[k] in catalog
      invariant forall n :: n in processed <==> n in categories[..i]
      invariant |ids| == |FirstOccurrences(categories[..i])|
      invariant forall k :: 0 <= k < |ids| ==>
                  (FirstOccurrences(categories[..i])[k] in catalog && ids[k] == catalog[FirstOccurrences(categories[..i])[k]])
    {
      var name := categories[i];
      assert categories[..i + 1] == categories[..i] + [name];
      assert categories[..i + 1][..i] == categories[..i];
      FirstOccurrencesDistinct(categories[..i]);
      if name in processed {
        i := i + 1;
        continue;
      }
      processed := processed + {name};
      if name !in catalog {
        return Err(name);
      }
      ids := ids + [catalog[name]];
      i := i + 1;
    }
    assert categories[..i] == categories;
    return Ok(ids);
  }

  /** The optional image field: absent, unreadable, or a file (processed is None when ProcessImage fails). */
  datatype ImagePart = NoImage | ImageUnreadable | Image(size: int, processed: Option<string>)

  /** The multipart form: parseOk is false on a parse error other than "not multipart". */
  datatype CreateForm = CreateForm(parseOk: bool, title: string, content: string,
                                   categories: seq<string>, image: ImagePart)

  /** The database calls of the API handlers that can fail. */
  datatype ApiFault = BeginFails | LookupFails | WriteFails | LinkFails | CommitFails | CountsFail

  const MaxImageSize: int := 20 * 1048576

  /** The request guards of handleCreatePost, before the transaction: 401 or 400, or None. */
  function CreateGuard(userID: string, form: CreateForm): (status: Option<int>)
    ensures status == None <==> userID != "" && form.parseOk && form.title != "" && form.content != ""
                                && |form.categories| > 0 && !form.image.ImageUnreadable?
                                && !(form.image.Image? && form.image.size > MaxImageSize)
    ensures status.Some? ==> status.value == (if userID == "" then 401 else 400)
  {
    if userID == "" then Some(401)
    else if !form.parseOk then Some(400)
    else if form.title == "" || form.content == "" || |form.categories| == 0 then Some(400)
    else if form.image.ImageUnreadable? then Some(400)
    else if form.image.Image? && form.image.size > MaxImageSize then Some(400)
    else None
  }

  /**
   * handleCreatePost, with newPostId the id the insert receives. Everything runs in one
   * transaction, so a failed request leaves the tables as they were; success (201) stores
   * the post and links it to each named category once.
   */
  method HandleCreatePost(db: Database, userID: string, form: CreateForm, newPostId: int, faults: set<ApiFault>)
    returns (status: int)
    requires newPostId !in db.posts
    modifies db
    ensures status != 201 ==> db.posts == old(db.posts) && db.postCategories == old(db.postCategories)
    ensures CreateGuard(userID, form).Some? ==> status == CreateGuard(userID, form).value
    ensures status == 201 <==>
              CreateGuard(userID, form) == None && !(form.image.Image? && form.image.processed.None?)
              && BeginFails !in faults && WriteFails !in faults && LinkFails !in faults && CommitFails !in faults
              && forall k :: 0 <= k < |form.categories| ==> form.categories[k] in old(db.categories)
    ensures status == 201 ==>
              db.posts == old(db.posts)[newPostId := PostRecord(userID, form.title, form.content,
                                                                if form.image.Image? then form.image.processed.value else "")]
              && db.postCategories == old(db.postCategories)
                                      + set n | n in form.categories :: (newPostId, old(db.categories)[n])
    ensures db.reactions == old(db.reactions) && db.commentReactions == old(db.commentReactions)
    ensures db.comments == old(db.comments) && db.categories == old(db.categories)
  {
    var guard := CreateGuard(userID, form);
    if guard.Some? {
      return guard.value;
    }
    var imagePath := "";
    if form.image.Image? {
      if form.image.processed.None? {
        return 500;
      }
      imagePath := form.image.processed.value;
    }
    if BeginFails in faults || WriteFails in faults {
      return 500;
    }
    var ids := ProcessCategories(form.categories, db.categories);
    if ids.Err? {
      return 500;
    }
    if LinkFails in faults || CommitFails in faults {
      return 500;
    }
    FirstOccurrencesDistinct(form.categories);
    ghost var names := FirstOccurrences(form.categories);
    var links := set k | 0 <= k < |ids.value| :: (newPostId, ids.value[k]);
    assert links == set n | n in form.categories :: (newPostId, db.categories[n]) by {
      forall n | n in form.categories
        ensures (newPostId, db.categories[n]) in links
      {
        var k :| 0 <= k < |names| && names[k] == n;
        assert ids.value[k] == db.categories[n];
      }
    }
    db.posts := db.posts[newPostId := PostRecord(userID, form.title, form.content, imagePath)];
    db.postCategories := db.postCategories + links;
    return 201;
  }

  // ---------------------------------------------------------------------------------------
  // handleReaction

  datatype ReactBody = ReactBody(postId: int, like: int)

  /** The userReaction the response reports: -1 when the same reaction was removed. */
  function ReportedReaction(t: map<ReactionKey, int>, key: ReactionKey, like: int): int
  {
    if key in t && t[key] == like then -1 else like
  }

  /** userReaction is -1 exactly when the toggle left no reaction, and otherwise the stored value. */
  lemma ReportedReactionMatchesTable(t: map<ReactionKey, int>, key: ReactionKey, like: int)
    requires like != -1
    ensures ReportedReaction(t, key, like) == -1 <==> key !in Toggled(t, key, like)
    ensures ReportedReaction(t, key, like) != -1 ==> Toggled(t, key, like)[key] == ReportedReaction(t, key, like)
  {
  }

  /**
   * handleReaction (checkAuth has run): 400 on an undecodable body, 500 when the transaction
   * fails at any step (leaving the table unchanged), otherwise the toggle is committed and
   * 200 reports userReaction; a failure to read the counts afterwards is a 500 after commit.
   */
  method HandleReaction(db: Database, userID: string, req: Option<ReactBody>, faults: set<ApiFault>)
    returns (status: int, userReaction: int)
    modifies db
    ensures req.None? ==> status == 400 && db.reactions == old(db.reactions)
    ensures req.Some? && (BeginFails in faults || LookupFails in faults || WriteFails in faults || CommitFails in faults) ==>
              status == 500 && db.reactions == old(db.reactions)
    ensures req.Some? && BeginFails !in faults && LookupFails !in faults && WriteFails !in faults && CommitFails !in faults ==>
              db.reactions == Toggled(old(db.reactions), (userID, req.value.postId), req.value.like)
              && status == (if CountsFail in faults then 500 else 200)
    ensures status == 200 ==> userReaction == ReportedReaction(old(db.reactions), (userID, req.value.postId), req.value.like)
    ensures db.posts == old(db.posts) && db.comments == old(db.comments) && db.commentReactions == old(db.commentReactions)
    ensures db.postCategories == old(db.postCategories) && db.categories == old(db.categories)
  {
    userReaction := 0;
    if req.None? {
      return 400, userReaction;
    }
    if BeginFails in faults || LookupFails in faults {
      return 500, userReaction;
    }
    var key := (userID, req.value.postId);
    var like := req.value.like;
    var updated := db.reactions;
    if key !in db.reactions {
      updated := updated[key := like];
    } else if db.reactions[key] == like {
      updated := updated - {key};
      like := -1;
    } else {
      updated := updated[key := like];
    }
    if WriteFails in faults || CommitFails in faults {
      return 500, userReaction;
    }
    db.reactions := updated;
    if CountsFail in faults {
      return 500, userReaction;
    }
    return 200, like;
  }

  // ---------------------------------------------------------------------------------------
  // handleEditPost and handleDeletePost

  datatype EditBody = EditBody(postId: int, title: string, content: string)

  /**
   * handleEditPost: 400 for an undecodable body, then the owner lookup (500 on error, 404 for
   * a missing post), 403 for another user's post even with empty fields, and only then 400
   * for an empty title or content; 500 when the update fails. The update of a row just found
   * always affects it, so the 404 the source gives for rowsAffected == 0 cannot occur and has
   * no branch here.
   */
  method HandleEditPost(db: Database, userID: string, req: Option<EditBody>, faults: set<ApiFault>)
    returns (status: int)
    modifies db
    ensures status != 200 ==> db.posts == old(db.posts)
    ensures req.None? ==> status == 400
    ensures req.Some? && LookupFails in faults ==> status == 500
    ensures status == 404 <==> req.Some? && LookupFails !in faults && req.value.postId !in old(db.posts)
    ensures status == 403 <==> req.Some? && LookupFails !in faults && req.value.postId in old(db.posts)
                               && old(db.posts)[req.value.postId].userId != userID
    ensures status == 200 <==> req.Some? && LookupFails !in faults && WriteFails !in faults
                               && req.value.postId in old(db.posts) && old(db.posts)[req.value.postId].userId == userID
                               && req.value.title != "" && req.value.content != ""
    ensures status == 200 ==>
              db.posts == old(db.posts)[req.value.postId :=
                old(db.posts)[req.value.postId].(title := req.value.title, content := req.value.content)]
    ensures db.reactions == old(db.reactions) && db.comments == old(db.comments) && db.commentReactions == old(db.commentReactions)
    ensures db.postCategories == old(db.postCategories) && db.categories == old(db.categories)
  {
    if req.None? {
      return 400;
    }
    var body := req.value;
    if LookupFails in faults {
      return 500;
    }
    if body.postId !in db.posts {
      return 404;
    }
    var post := db.posts[body.postId];
    if post.userId != userID {
      return 403;
    }
    if body.title == "" || body.content == "" {
      return 400;
    }
    if WriteFails in faults {
      return 500;
    }
    db.posts := db.posts[body.postId := post.(title := body.title, content := body.content)];
    return 200;
  }

  /**
   * handleDeletePost: the same 400/500/404/403 guards, then one transaction deleting the post's
   * category links, reactions and comments before the post itself; any failing step (500)
   * rolls everything back.
   */
  method HandleDeletePost(db: Database, userID: string, req: Option<int>, faults: set<ApiFault>)
    returns (status: int)
    modifies db
    ensures status != 200 ==> db.posts == old(db.posts) && db.reactions == old(db.reactions)
                              && db.comments == old(db.comments) && db.postCategories == old(db.postCategories)
    ensures req.None? ==> status == 400
    ensures status == 404 <==> req.Some? && LookupFails !in faults && req.value !in old(db.posts)
    ensures status == 403 <==> req.Some? && LookupFails !in faults && req.value in old(db.posts)
                               && old(db.posts)[req.value].userId != userID
    ensures status == 200 <==> req.Some? && LookupFails !in faults && BeginFails !in faults
                               && WriteFails !in faults && CommitFails !in faults
                               && req.value in old(db.posts) && old(db.posts)[req.value].userId == userID
    ensures status == 200 ==>
              && db.posts == old(db.posts) - {req.value}
              && db.reactions == (map k | k in old(db.reactions) && k.1 != req.value :: old(db.reactions)[k])
              && db.comments == (map c | c in old(db.comments) && old(db.comments)[c].postId != req.value :: old(db.comments)[c])
              && db.postCategories == (set l | l in old(db.postCategories) && l.0 != req.value)
    ensures db.commentReactions == old(db.commentReactions) && db.categories == old(db.categories)
  {
    if req.None? {
      return 400;
    }
    var postID := req.value;
    if LookupFails in faults {
      return 500;
    }
    if postID !in db.posts {
      return 404;
    }
    if db.posts[postID].userId != userID {
      return 403;
    }
    if BeginFails in faults || WriteFails in faults || CommitFails in faults {
      return 500;
    }
    db.postCategories := set l | l in db.postCategories && l.0 != postID;
    db.reactions := map k | k in db.reactions && k.1 != postID :: db.reactions[k];
    db.comments := map c | c in db.comments && db.comments[c].postId != postID :: db.comments[c];
    db.posts := db.posts - {postID};
    return 200;
  }
}
