// The row grouping shared by scanPosts (controllers/post_handler.go) and the fetchUserPosts*
// functions of controllers/filters.go. A posts x categories LEFT JOIN yields one row per
// (post, category) pair; the scan loop folds the rows into postMap, one post per id, and the
// final range over postMap lists the posts.
module PostRows {
  import opened Wrappers

  datatype Category = Category(id: int, name: string)

  /** The post columns of a row; postTime is the raw instant (its rendering is separate). */
  datatype PostData = PostData(id: int, userId: string, title: string, content: string,
                               imagePath: string, postTime: int, likes: int, dislikes: int,
                               comments: int, username: string, profilePic: string)

  datatype Post = Post(data: PostData, categories: seq<Category>)

  /** A fetched row; BadRow is a row that rows.Scan rejects. */
  datatype Row = BadRow | Row(post: PostData, categoryId: Option<int>, categoryName: Option<string>)

  /** The category a row carries: present only when neither joined column is NULL. */
  function RowCategory(row: Row): Option<Category>
    requires row.Row?
  {
    if row.categoryId.Some? && row.categoryName.Some? then
      Some(Category(row.categoryId.value, row.categoryName.value))
    else None
  }

  predicate HasCategoryId(cats: seq<Category>, id: int)
  {
    exists k :: 0 <= k < |cats| && cats[k].id == id
  }

  predicate HasBadRow(rows: seq<Row>)
  {
    exists k :: 0 <= k < |rows| && rows[k].BadRow?
  }

  /** postMap together with the order in which its ids were first met. */
  datatype Table = Table(posts: map<int, Post>, order: seq<int>)

  /**
   * One pass of the scan loop over a well-scanned row. A new id stores the row's post with
   * its category (if any); a known id keeps the stored post and appends the category, except
   * that with dedup a category id the post already lists is skipped.
   */
  function AddRow(t: Table, p: PostData, cat: Option<Category>, dedup: bool): Table
  {
    if p.id in t.posts then
      var existing := t.posts[p.id];
      if cat.Some? && !(dedup && HasCategoryId(existing.categories, cat.value.id)) then
        Table(t.posts[p.id := Post(existing.data, existing.categories + [cat.value])], t.order)
      else
        t
    else
      Table(t.posts[p.id := Post(p, if cat.Some? then [cat.value] else [])], t.order + [p.id])
  }

  /** The table after the whole row stream, rows that fail to scan skipped. */
  function Fold(rows: seq<Row>, dedup: bool): Table
  {
    if rows == [] then Table(map[], [])
    else
      var t := Fold(rows[..|rows| - 1], dedup);
      var last := rows[|rows| - 1];
      if last.BadRow? then t else AddRow(t, last.post, RowCategory(last), dedup)
  }

  /** The stored posts listed in the given order of ids. */
  function Listed(posts: map<int, Post>, order: seq<int>): (ps: seq<Post>)
    requires forall k :: 0 <= k < |order| ==> order[k] in posts
    ensures |ps| == |order|
    ensures forall k :: 0 <= k < |order| ==> ps[k] == posts[order[k]]
  {
    if order == [] then [] else Listed(posts, order[..|order| - 1]) + [posts[order[|order| - 1]]]
  }

  /** The invariant of postMap: ids listed once each, exactly the keys, each under its own id. */
  predicate WellFormed(t: Table)
  {
    && (forall i, j :: 0 <= i < j < |t.order| ==> t.order[i] != t.order[j])
    && (forall id :: id in t.posts ==> id in t.order)
    && (forall k :: 0 <= k < |t.order| ==> t.order[k] in t.posts && t.posts[t.order[k]].data.id == t.order[k])
  }

  /** The posts a fold produces, in first-seen order. */
  function Grouped(rows: seq<Row>, dedup: bool): seq<Post>
  {
    FoldWellFormed(rows, dedup);
    var t := Fold(rows, dedup);
    Listed(t.posts, t.order)
  }

  predicate IsGoodRowWithId(row: Row, id: int) { row.Row? && row.post.id == id }

  /** The valid categories of the rows with this id, in row order. */
  function CatsOf(rows: seq<Row>, id: int): seq<Category>
  {
    if rows == [] then []
    else
      var last := rows[|rows| - 1];
      CatsOf(rows[..|rows| - 1], id)
      + (if IsGoodRowWithId(last, id) && RowCategory(last).Some? then [RowCategory(last).value] else [])
  }

  /** cats with every category whose id occurred earlier removed. */
  function DedupById(cats: seq<Category>): seq<Category>
  {
    if cats == [] then []
    else
      var d := DedupById(cats[..|cats| - 1]);
      var last := cats[|cats| - 1];
      if HasCategoryId(d, last.id) then d else d + [last]
  }

  lemma {:induction false} FoldWellFormed(rows: seq<Row>, dedup: bool)
    ensures WellFormed(Fold(rows, dedup))
  {
    if rows != [] {
      FoldWellFormed(rows[..|rows| - 1], dedup);
      var last := rows[|rows| - 1];
      if last.Row? {
        AddRowWellFormed(Fold(rows[..|rows| - 1], dedup), last.post, RowCategory(last), dedup);
      }
    }
  }

  /** One pass of the scan loop keeps the table well formed. */
  lemma AddRowWellFormed(t: Table, p: PostData, cat: Option<Category>, dedup: bool)
    requires WellFormed(t)
    ensures WellFormed(AddRow(t, p, cat, dedup))
  {
    if p.id in t.posts {
      KnownIdWellFormed(t, p, cat, dedup);
    } else {
      NewIdWellFormed(t, p, if cat.Some? then [cat.value] else []);
    }
  }

  lemma KnownIdWellFormed(t: Table, p: PostData, cat: Option<Category>, dedup: bool)
    requires WellFormed(t) && p.id in t.posts
    ensures WellFormed(AddRow(t, p, cat, dedup))
  {
    var t' := AddRow(t, p, cat, dedup);
    assert t'.order == t.order && t'.posts.Keys == t.posts.Keys;
    assert forall k :: k in t.posts ==> t'.posts[k].data == t.posts[k].data;
  }

  lemma NewIdWellFormed(t: Table, p: PostData, cats: seq<Category>)
    requires WellFormed(t) && p.id !in t.posts
    ensures WellFormed(Table(t.posts[p.id := Post(p, cats)], t.order + [p.id]))
  {
    var t' := Table(t.posts[p.id := Post(p, cats)], t.order + [p.id]);
    assert forall k :: 0 <= k < |t.order| ==> t.order[k] != p.id && t'.order[k] == t.order[k];
  }

  /** A post id is stored exactly when some well-scanned row carries it. */
  lemma {:induction false} FoldKeys(rows: seq<Row>, dedup: bool, id: int)
    ensures id in Fold(rows, dedup).posts <==> exists k :: 0 <= k < |rows| && IsGoodRowWithId(rows[k], id)
  {
    if rows != [] {
      var prefix := rows[..|rows| - 1];
      FoldKeys(prefix, dedup, id);
      if id in Fold(prefix, dedup).posts {
        var k :| 0 <= k < |prefix| && IsGoodRowWithId(prefix[k], id);
        assert rows[k] == prefix[k];
      }
      if exists k :: 0 <= k < |rows| && IsGoodRowWithId(rows[k], id) {
        var k :| 0 <= k < |rows| && IsGoodRowWithId(rows[k], id);
        if k < |prefix| {
          assert prefix[k] == rows[k];
        }
      }
    }
  }

  /** The first well-scanned row of an id supplies the post's columns; later rows do not. */
  lemma {:induction false} FoldFirstRowWins(rows: seq<Row>, dedup: bool, k: int)
    requires 0 <= k < |rows| && rows[k].Row?
    requires forall j :: 0 <= j < k ==> !IsGoodRowWithId(rows[j], rows[k].post.id)
    ensures rows[k].post.id in Fold(rows, dedup).posts
    ensures Fold(rows, dedup).posts[rows[k].post.id].data == rows[k].post
  {
    var prefix := rows[..|rows| - 1];
    var id := rows[k].post.id;
    if k == |rows| - 1 {
      FoldKeys(prefix, dedup, id);
      assert forall j :: 0 <= j < |prefix| ==> prefix[j] == rows[j];
    } else {
      assert forall j :: 0 <= j < k ==> prefix[j] == rows[j];
      FoldFirstRowWins(prefix, dedup, k);
    }
  }

  /** Without de-duplication a post lists the valid categories of its rows, in row order. */
  lemma {:induction false} FoldPlainCategories(rows: seq<Row>, id: int)
    requires id in Fold(rows, false).posts
    ensures Fold(rows, false).posts[id].categories == CatsOf(rows, id)
  {
    var prefix := rows[..|rows| - 1];
    var last := rows[|rows| - 1];
    var t := Fold(prefix, false);
    if id in t.posts {
      FoldPlainCategories(prefix, id);
    } else {
      FoldKeys(prefix, false, id);
      CatsOfAbsent(prefix, id);
    }
  }

  /** With de-duplication a post lists the first category of each id among its rows. */
  lemma {:induction false} FoldDedupCategories(rows: seq<Row>, id: int)
    requires id in Fold(rows, true).posts
    ensures Fold(rows, true).posts[id].categories == DedupById(CatsOf(rows, id))
  {
    var prefix := rows[..|rows| - 1];
    var last := rows[|rows| - 1];
    var t := Fold(prefix, true);
    var cs := CatsOf(rows, id);
    if id in t.posts {
      FoldDedupCategories(prefix, id);
      if IsGoodRowWithId(last, id) && RowCategory(last).Some? {
        assert cs[..|cs| - 1] == CatsOf(prefix, id);
      } else {
        assert cs == CatsOf(prefix, id);
      }
    } else {
      FoldKeys(prefix, true, id);
      CatsOfAbsent(prefix, id);
      assert cs == CatsOf(prefix, id) + (if RowCategory(last).Some? then [RowCategory(last).value] else []);
      if RowCategory(last).Some? {
        assert cs[..|cs| - 1] == [];
      }
    }
  }

  lemma {:induction false} CatsOfAbsent(rows: seq<Row>, id: int)
    requires forall k :: 0 <= k < |rows| ==> !IsGoodRowWithId(rows[k], id)
    ensures CatsOf(rows, id) == []
  {
    if rows != [] {
      var prefix := rows[..|rows| - 1];
      assert forall k :: 0 <= k < |prefix| ==> prefix[k] == rows[k];
      CatsOfAbsent(prefix, id);
    }
  }

  /** After de-duplication no two categories share an id. */
  lemma {:induction false} DedupDistinct(cats: seq<Category>)
    ensures forall i, j :: 0 <= i < j < |DedupById(cats)| ==> DedupById(cats)[i].id != DedupById(cats)[j].id
  {
    if cats != [] {
      DedupDistinct(cats[..|cats| - 1]);
    }
  }

  /** A category id occurs in a concatenation when it occurs in either part. */
  lemma HasIdAppend(a: seq<Category>, b: seq<Category>, id: int)
    ensures HasCategoryId(a + b, id) <==> HasCategoryId(a, id) || HasCategoryId(b, id)
  {
    if HasCategoryId(a + b, id) {
      var k :| 0 <= k < |a + b| && (a + b)[k].id == id;
      if k < |a| {
        assert a[k] == (a + b)[k];
      } else {
        assert b[k - |a|] == (a + b)[k];
      }
    }
    if HasCategoryId(a, id) {
      var k :| 0 <= k < |a| && a[k].id == id;
      assert (a + b)[k] == a[k];
    }
    if HasCategoryId(b, id) {
      var k :| 0 <= k < |b| && b[k].id == id;
      assert (a + b)[|a| + k] == b[k];
    }
  }

  lemma HasIdSingle(c: Category, id: int)
    ensures HasCategoryId([c], id) <==> c.id == id
  {
    if c.id == id {
      assert [c][0].id == id;
    }
  }

  /** De-duplication keeps every category id that occurs. */
  lemma {:induction false} DedupKeepsIds(cats: seq<Category>, id: int)
    ensures HasCategoryId(DedupById(cats), id) <==> HasCategoryId(cats, id)
  {
    if cats != [] {
      var prefix := cats[..|cats| - 1];
      var last := cats[|cats| - 1];
      var d := DedupById(prefix);
      DedupKeepsIds(prefix, id);
      assert cats == prefix + [last];
      HasIdAppend(prefix, [last], id);
      HasIdSingle(last, id);
      if !HasCategoryId(d, last.id) {
        HasIdAppend(d, [last], id);
      }
    }
  }

  /** Every category that survives de-duplication occurs in the input. */
  lemma {:induction false} DedupSubset(cats: seq<Category>)
    ensures forall k :: 0 <= k < |DedupById(cats)| ==> DedupById(cats)[k] in cats
  {
    if cats != [] {
      DedupSubset(cats[..|cats| - 1]);
    }
  }

  /** A row without a category leaves a post that is already stored exactly as it was. */
  lemma NullCategoryAddsNothing(rows: seq<Row>, row: Row, dedup: bool)
    requires row.Row? && RowCategory(row).None?
    requires row.post.id in Fold(rows, dedup).posts
    ensures Fold(rows + [row], dedup) == Fold(rows, dedup)
  {
    assert (rows + [row])[..|rows|] == rows;
  }

  /** One post per distinct id among the well-scanned rows. */
  lemma GroupedOnePerId(rows: seq<Row>, dedup: bool, id: int)
    ensures forall i, j :: 0 <= i < j < |Grouped(rows, dedup)| ==>
              Grouped(rows, dedup)[i].data.id != Grouped(rows, dedup)[j].data.id
    ensures (exists i :: 0 <= i < |Grouped(rows, dedup)| && Grouped(rows, dedup)[i].data.id == id)
              <==> (exists k :: 0 <= k < |rows| && IsGoodRowWithId(rows[k], id))
  {
    FoldWellFormed(rows, dedup);
    var t := Fold(rows, dedup);
    var ps := Grouped(rows, dedup);
    FoldKeys(rows, dedup, id);
    if id in t.posts {
      var i :| 0 <= i < |t.order| && t.order[i] == id;
      assert ps[i].data.id == id;
    }
  }

  /** The `for _, post := range postMap` loop, visiting ids in first-seen order. */
  method CollectPosts(postMap: map<int, Post>, order: seq<int>) returns (posts: seq<Post>)
    requires forall k :: 0 <= k < |order| ==> order[k] in postMap
    ensures posts == Listed(postMap, order)
  {
    posts := [];
    var j := 0;
    while j < |order|
      invariant 0 <= j <= |order|
      invariant posts == Listed(postMap, order[..j])
    {
      assert order[..j + 1][..j] == order[..j];
      posts := posts + [postMap[order[j]]];
      j := j + 1;
    }
    assert order[..j] == order;
  }
}
