// The three scan loops of controllers/filters.go that turn the joined rows of a user's posts,
// liked posts and commented posts into one post per id. They differ in two choices: what a
// row that fails to scan does (skip it or abort) and whether a category id already listed
// is appended again.
module Filters {
  import opened Wrappers
  import opened PostRows

  /**
   * fetchUserPostsForPosts: bad rows are skipped, and a category is appended only when the
   * post does not list its id yet (the inner search loop that breaks on a match).
   */
  method FetchUserPostsForPosts(rows: seq<Row>) returns (posts: seq<Post>)
    ensures posts == Grouped(rows, true)
  {
    var postMap: map<int, Post> := map[];
    var order: seq<int> := [];
    var i := 0;
    while i < |rows|
      invariant 0 <= i <= |rows|
      invariant Table(postMap, order) == Fold(rows[..i], true)
    {
      assert rows[..i + 1][..i] == rows[..i];
      var row := rows[i];
      if row.Row? {
        var cat := RowCategory(row);
        if row.post.id in postMap {
          var existing := postMap[row.post.id];
          if cat.Some? {
            var categoryExists := false;
            var j := 0;
            while j < |existing.categories|
              invariant 0 <= j <= |existing.categories|
              invariant !categoryExists
              invariant forall m :: 0 <= m < j ==> existing.categories[m].id != cat.value.id
            {
              if existing.categories[j].id == cat.value.id {
                categoryExists := true;
                break;
              }
              j := j + 1;
            }
            assert categoryExists <==> HasCategoryId(existing.categories, cat.value.id);
            if !categoryExists {
              postMap := postMap[row.post.id := Post(existing.data, existing.categories + [cat.value])];
            }
          }
        } else {
          postMap := postMap[row.post.id := Post(row.post, if cat.Some? then [cat.value] else [])];
          order := order + [row.post.id];
        }
      }
      i := i + 1;
    }
    assert rows[..i] == rows;
    FoldWellFormed(rows, true);
    posts := CollectPosts(postMap, order);
  }

  /**
   * fetchUserPostsForLikes: the first row that fails to scan aborts the whole listing (its
   * index is the error); categories are appended without de-duplication.
   */
  method FetchUserPostsForLikes(rows: seq<Row>) returns (r: Result<seq<Post>, nat>)
    ensures r.Err? <==> HasBadRow(rows)
    ensures r.Err? ==> r.error < |rows| && rows[r.error].BadRow?
                       && forall j :: 0 <= j < r.error ==> rows[j].Row?
    ensures r.Ok? ==> r.value == Grouped(rows, false)
  {
    var postMap: map<int, Post> := map[];
    var order: seq<int> := [];
    var i := 0;
    while i < |rows|
      invariant 0 <= i <= |rows|
      invariant forall j :: 0 <= j < i ==> rows[j].Row?
      invariant Table(postMap, order) == Fold(rows[..i], false)
    {
      assert rows[..i + 1][..i] == rows[..i];
      var row := rows[i];
      if row.BadRow? {
        return Err(i);
      }
      ghost var expected := AddRow(Table(postMap, order), row.post, RowCategory(row), false);
      var post := Post(row.post, []);
      var known := row.post.id in postMap;
      if known {
        post := postMap[row.post.id];
      }
      var cat := RowCategory(row);
      if cat.Some? {
        post := Post(post.data, post.categories + [cat.value]);
      }
      if !known {
        order := order + [row.post.id];
      }
      assert known && cat.None? ==> postMap[row.post.id := post] == postMap;
      assert !known && cat.Some? ==> post.categories == [cat.value];
      postMap := postMap[row.post.id := post];
      assert Table(postMap, order) == expected;
      i := i + 1;
    }
    assert rows[..i] == rows;
    FoldWellFormed(rows, false);
    var posts := CollectPosts(postMap, order);
    return Ok(posts);
  }

  /**
   * FetchUserPostsForComments: bad rows are skipped and categories are appended without
   * de-duplication.
   */
  method FetchUserPostsForComments(rows: seq<Row>) returns (posts: seq<Post>)
    ensures posts == Grouped(rows, false)
  {
    var postMap: map<int, Post> := map[];
    var order: seq<int> := [];
    var i := 0;
    while i < |rows|
      invariant 0 <= i <= |rows|
      invariant Table(postMap, order) == Fold(rows[..i], false)
    {
      assert rows[..i + 1][..i] == rows[..i];
      var row := rows[i];
      if row.Row? {
        var cat := RowCategory(row);
        if row.post.id in postMap {
          if cat.Some? {
            var existing := postMap[row.post.id];
            postMap := postMap[row.post.id := Post(existing.data, existing.categories + [cat.value])];
          }
        } else {
          postMap := postMap[row.post.id := Post(row.post, if cat.Some? then [cat.value] else [])];
          order := order + [row.post.id];
        }
      }
      i := i + 1;
    }
    assert rows[..i] == rows;
    FoldWellFormed(rows, false);
    posts := CollectPosts(postMap, order);
  }

  /** In the posts listing no post lists two categories with the same id. */
  lemma PostsListingCategoriesDistinct(rows: seq<Row>, i: int)
    requires 0 <= i < |Grouped(rows, true)|
    ensures forall a, b :: 0 <= a < b < |Grouped(rows, true)[i].categories| ==>
              Grouped(rows, true)[i].categories[a].id != Grouped(rows, true)[i].categories[b].id
  {
    FoldWellFormed(rows, true);
    var t := Fold(rows, true);
    var id := t.order[i];
    FoldDedupCategories(rows, id);
    DedupDistinct(CatsOf(rows, id));
  }

  /**
   * In the likes and comments listings a post's categories are exactly the valid categories
   * of its rows, in row order, so a category occurs once per row that carries it.
   */
  lemma PlainListingCategories(rows: seq<Row>, i: int)
    requires 0 <= i < |Grouped(rows, false)|
    ensures Grouped(rows, false)[i].categories == CatsOf(rows, Grouped(rows, false)[i].data.id)
  {
    FoldWellFormed(rows, false);
    var t := Fold(rows, false);
    FoldPlainCategories(rows, t.order[i]);
  }
}
