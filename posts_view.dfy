// static/js/components/posts/posts.js: which posts the list shows for a category filter, the
// preview of each post's content, and who sees the Edit and Delete controls. The HTML the
// component writes is reduced to the list of cards, or the empty state.
module PostsView {
  import opened Wrappers
  import opened JsValues

  /** A category as the API sends it, under either spelling of its name. */
  datatype Category = Category(Name: JsValue, name: JsValue)

  /** The fields of a listed post that the list reads (the rendered-only ones are left out). */
  datatype ListedPost = ListedPost(
    ID: JsValue, id: JsValue, Title: JsValue, title: JsValue, Content: JsValue, content: JsValue,
    UserID: JsValue, userId: JsValue, user_id: JsValue, userID: JsValue,
    Categories: Option<seq<Category>>)

  /** post.Categories.some(cat => cat.Name === filter || cat.name === filter). */
  predicate InCategory(p: ListedPost, filter: string)
  {
    p.Categories.Some? && exists k :: 0 <= k < |p.Categories.value| && IsCategory(p.Categories.value[k], filter)
  }

  predicate IsCategory(c: Category, filter: string)
  {
    c.Name == Str(filter) || c.name == Str(filter)
  }

  /** The posts having a category of that name, in their original order. */
  function OfCategory(posts: seq<ListedPost>, filter: string): (r: seq<ListedPost>)
    ensures |r| <= |posts|
    ensures forall p :: p in r <==> p in posts && InCategory(p, filter)
  {
    if posts == [] then []
    else
      var rest := OfCategory(posts[1..], filter);
      assert forall p :: p in posts <==> p == posts[0] || p in posts[1..];
      if InCategory(posts[0], filter) then [posts[0]] + rest else rest
  }

  /** Filtering respects order: the posts of a concatenation are the posts of each part, in turn. */
  lemma {:induction false} OfCategoryAppend(a: seq<ListedPost>, b: seq<ListedPost>, filter: string)
    ensures OfCategory(a + b, filter) == OfCategory(a, filter) + OfCategory(b, filter)
  {
    if a == [] {
      assert a + b == b;
    } else {
      assert (a + b)[0] == a[0];
      assert (a + b)[1..] == a[1..] + b;
      OfCategoryAppend(a[1..], b, filter);
    }
  }

  /** Filtering twice by the same name is filtering once. */
  lemma {:induction false} OfCategoryIdempotent(posts: seq<ListedPost>, filter: string)
    ensures OfCategory(OfCategory(posts, filter), filter) == OfCategory(posts, filter)
  {
    if posts != [] {
      OfCategoryIdempotent(posts[1..], filter);
      var rest := OfCategory(posts[1..], filter);
      if InCategory(posts[0], filter) {
        assert ([posts[0]] + rest)[0] == posts[0];
        assert ([posts[0]] + rest)[1..] == rest;
      }
    }
  }

  /** render's list: every post without a (truthy) filterCategory, the posts of that category with one. */
  function FilteredPosts(posts: seq<ListedPost>, filterCategory: Option<string>): (r: seq<ListedPost>)
    ensures filterCategory.None? || filterCategory.value == "" ==> r == posts
    ensures filterCategory.Some? && filterCategory.value != "" ==> r == OfCategory(posts, filterCategory.value)
  {
    if filterCategory.Some? && filterCategory.value != "" then OfCategory(posts, filterCategory.value) else posts
  }

  /**
   * The first limit characters, followed by "..." exactly when something was cut off.
   * String.prototype.substring counts UTF-16 code units; here a character is one unit.
   */
  function Preview(content: string, limit: nat): (r: string)
    ensures |content| <= limit ==> r == content
    ensures |content| > limit ==> r == content[..limit] + "..." && |r| == limit + 3
    ensures |r| <= limit + 3
  {
    if |content| > limit then content[..limit] + "..." else content
  }

  /** A preview is never longer than its content, plus the ellipsis when it was truncated. */
  lemma PreviewPrefix(content: string, limit: nat)
    ensures var r := Preview(content, limit);
            (|content| <= limit ==> r == content)
            && (|content| > limit ==> r[..limit] == content[..limit] && r[limit..] == "...")
  {
  }

  const PreviewLength: nat := 150

  /** The card of one post: its id, title and preview, and whether the viewer wrote it. */
  datatype Card = Card(postId: string, title: string, preview: string, isAuthor: bool)

  /** post.UserID || post.userId || post.user_id || post.userID || ''. */
  function AuthorId(p: ListedPost): JsValue
  {
    Or(p.UserID, Or(p.userId, Or(p.user_id, Or(p.userID, Str("")))))
  }

  /** Edit and Delete show only to a signed-in viewer whose id is, strictly, the author id. */
  function IsAuthor(p: ListedPost, isLoggedIn: bool, currentUserID: JsValue): (shown: bool)
    ensures shown <==> isLoggedIn && currentUserID == AuthorId(p)
    ensures shown && Truthy(p.UserID) ==> currentUserID == p.UserID
    ensures !isLoggedIn ==> !shown
  {
    isLoggedIn && currentUserID == AuthorId(p)
  }

  function CardOf(p: ListedPost, isLoggedIn: bool, currentUserID: JsValue): (c: Card)
    ensures c.isAuthor == IsAuthor(p, isLoggedIn, currentUserID)
    ensures c.postId == Render(Or(p.ID, p.id))
    ensures c.preview == Preview(Render(Or(p.Content, Or(p.content, Str("No content")))), PreviewLength)
  {
    Card(Render(Or(p.ID, p.id)), Render(Or(p.Title, Or(p.title, Str("Untitled Post")))),
         Preview(Render(Or(p.Content, Or(p.content, Str("No content")))), PreviewLength),
         IsAuthor(p, isLoggedIn, currentUserID))
  }

  function Cards(posts: seq<ListedPost>, isLoggedIn: bool, currentUserID: JsValue): (r: seq<Card>)
    ensures |r| == |posts|
    ensures forall k :: 0 <= k < |posts| ==> r[k] == CardOf(posts[k], isLoggedIn, currentUserID)
  {
    if posts == [] then [] else [CardOf(posts[0], isLoggedIn, currentUserID)] + Cards(posts[1..], isLoggedIn, currentUserID)
  }

  /** What render shows: the empty state, or one card per listed post. */
  datatype View = EmptyState(filterCategory: Option<string>, isLoggedIn: bool) | PostList(cards: seq<Card>)

  function RenderPosts(posts: seq<ListedPost>, filterCategory: Option<string>, isLoggedIn: bool,
                       currentUserID: JsValue): (v: View)
    ensures v.EmptyState? <==> FilteredPosts(posts, filterCategory) == []
    ensures v.PostList? ==> |v.cards| == |FilteredPosts(posts, filterCategory)|
    ensures v.PostList? ==>
              forall k :: 0 <= k < |v.cards| ==>
                v.cards[k] == CardOf(FilteredPosts(posts, filterCategory)[k], isLoggedIn, currentUserID)
    ensures !isLoggedIn && v.PostList? ==> forall k :: 0 <= k < |v.cards| ==> !v.cards[k].isAuthor
  {
    var shown := FilteredPosts(posts, filterCategory);
    if shown == [] then EmptyState(filterCategory, isLoggedIn) else PostList(Cards(shown, isLoggedIn, currentUserID))
  }

  /** A post with no author field at all reads as written by the id '', so a viewer signed in with '' sees its controls. */
  lemma AuthorlessPost(p: ListedPost)
    requires !Truthy(p.UserID) && !Truthy(p.userId) && !Truthy(p.user_id) && !Truthy(p.userID)
    ensures AuthorId(p) == Str("")
    ensures IsAuthor(p, true, Str(""))
  {
  }
}
