// controllers/post_handler.go: the post-id guard of the "/" route, FormatTimeAgo, the
// like/dislike toggles on posts and comments, the comment edit guards and scanPosts.
module PostHandler {
  import opened Wrappers
  import opened Strings
  import opened ForumDb
  import opened PostRows
  import Validation

  // ---------------------------------------------------------------------------------------
  // GET "/" with an optional ?id=

  datatype NotFoundReason = EmptyPostId | InvalidPostId | PostNotFound

  datatype RootPage = PostList | NotFoundPage(reason: NotFoundReason) | SinglePost(id: int)

  /**
   * The "/" route: no id lists the posts; a present id is trimmed, must parse as an integer
   * above zero and name a stored post (existing holds the ids the EXISTS query confirms).
   */
  function RootRoute(idParam: string, existing: set<int>): (page: RootPage)
    ensures idParam == "" ==> page == PostList
    ensures idParam != "" && TrimSpace(idParam) == "" ==> page == NotFoundPage(EmptyPostId)
    ensures page == NotFoundPage(InvalidPostId) <==>
              idParam != "" && TrimSpace(idParam) != "" && Validation.ValidatePostID(TrimSpace(idParam)).1.Some?
    ensures page.SinglePost? <==>
              idParam != "" && Validation.ValidatePostID(TrimSpace(idParam)).1 == None
              && Validation.ValidatePostID(TrimSpace(idParam)).0 in existing
    ensures page.SinglePost? ==> page.id > 0 && page.id == Validation.ValidatePostID(TrimSpace(idParam)).0
  {
    if idParam == "" then PostList
    else
      var trimmed := TrimSpace(idParam);
      if trimmed == "" then NotFoundPage(EmptyPostId)
      else
        var parsed := Atoi(trimmed);
        if parsed.None? || parsed.value <= 0 then NotFoundPage(InvalidPostId)
        else if parsed.value !in existing then NotFoundPage(PostNotFound)
        else SinglePost(parsed.value)
  }

  // ---------------------------------------------------------------------------------------
  // FormatTimeAgo, on durations in nanoseconds (time.Duration)

  const Minute: int := 60_000_000_000
  const Hour: int := 60 * Minute
  const Day: int := 24 * Hour
  const Week: int := 7 * Day

  /** "1 minute ago" for one, "<n> minutes ago" otherwise. */
  function AgoText(n: int, unit: string): string
  {
    if n == 1 then "1 " + unit + " ago" else IntToString(n) + " " + unit + "s ago"
  }

  /**
   * FormatTimeAgo for the age diff = now - t; date is the "Jan 2, 2006" rendering of t used
   * from 30 days on. int(diff.Minutes()) and int(diff.Hours()) truncate toward zero, which on
   * the positive ages of those branches is integer division; days and weeks divide the hour
   * count further, as int(diff.Hours() / 24) and int(diff.Hours() / 24 / 7) do.
   */
  function FormatTimeAgo(diff: int, date: string): (s: string)
    ensures diff < Minute ==> s == "just now"
    ensures Day <= diff < 2 * Day ==> s == "yesterday"
    ensures 30 * Day <= diff ==> s == date
  {
    if diff < Minute then "just now"
    else if diff < Hour then
      var minutes := diff / Minute;
      if minutes == 1 then "1 minute ago" else IntToString(minutes) + " minutes ago"
    else if diff < Day then
      var hours := diff / Hour;
      if hours == 1 then "1 hour ago" else IntToString(hours) + " hours ago"
    else if diff < 2 * Day then "yesterday"
    else if diff < Week then
      var days := (diff / Hour) / 24;
      if days == 1 then "1 day ago" else IntToString(days) + " days ago"
    else if diff < 30 * Day then
      var weeks := (diff / Hour) / 24 / 7;
      if weeks == 1 then "1 week ago" else IntToString(weeks) + " weeks ago"
    else date
  }

  /** A quotient between two multiples of the divisor lies between their factors. */
  lemma QuotientBetween(x: int, d: int, lo: int, hi: int)
    requires d > 0 && lo * d <= x < hi * d
    ensures lo <= x / d < hi
  {
    var q := x / d;
    assert x == q * d + x % d;
    assert (q + 1 - lo) * d > 0;
    PositiveFactor(q + 1 - lo, d);
    assert (hi - q) * d > 0;
    PositiveFactor(hi - q, d);
  }

  lemma PositiveFactor(a: int, d: int)
    requires d > 0 && a * d > 0
    ensures a > 0
  {
  }

  lemma MinutesBucket(diff: int, date: string)
    requires Minute <= diff < Hour
    ensures 1 <= diff / Minute <= 59
    ensures FormatTimeAgo(diff, date) == AgoText(diff / Minute, "minute")
  {
    QuotientBetween(diff, Minute, 1, 60);
    assert "1 " + "minute" + " ago" == "1 minute ago";
    assert IntToString(diff / Minute) + " " + "minute" + "s ago" == IntToString(diff / Minute) + " minutes ago";
  }

  lemma HoursBucket(diff: int, date: string)
    requires Hour <= diff < Day
    ensures 1 <= diff / Hour <= 23
    ensures FormatTimeAgo(diff, date) == AgoText(diff / Hour, "hour")
  {
    QuotientBetween(diff, Hour, 1, 24);
    assert "1 " + "hour" + " ago" == "1 hour ago";
    assert IntToString(diff / Hour) + " " + "hour" + "s ago" == IntToString(diff / Hour) + " hours ago";
  }

  /** Truncating the hour count by 24 (and 7) is whole days (and weeks). */
  lemma HourCountDivision(diff: int)
    requires diff >= 0
    ensures (diff / Hour) / 24 == diff / Day
    ensures (diff / Hour) / 24 / 7 == diff / Week
  {
    var h := diff / Hour;
    var d := h / 24;
    assert diff == h * Hour + diff % Hour;
    assert h == d * 24 + h % 24;
    assert diff == d * Day + ((h % 24) * Hour + diff % Hour);
    assert 0 <= (h % 24) * Hour + diff % Hour < Day;
    var w := d / 7;
    assert d == w * 7 + d % 7;
    assert diff == w * Week + ((d % 7) * Day + (h % 24) * Hour + diff % Hour);
    assert 0 <= (d % 7) * Day + (h % 24) * Hour + diff % Hour < Week;
  }

  lemma DaysBucket(diff: int, date: string)
    requires 2 * Day <= diff < Week
    ensures 2 <= diff / Day <= 6
    ensures FormatTimeAgo(diff, date) == AgoText(diff / Day, "day")
  {
    HourCountDivision(diff);
    assert diff == (diff / Day) * Day + diff % Day;
  }

  lemma WeeksBucket(diff: int, date: string)
    requires Week <= diff < 30 * Day
    ensures 1 <= diff / Week <= 4
    ensures FormatTimeAgo(diff, date) == AgoText(diff / Week, "week")
  {
    HourCountDivision(diff);
    assert diff == (diff / Week) * Week + diff % Week;
  }

  /** The singular wording appears exactly when the count is one. */
  lemma SingularExactlyForOne(n: int, unit: string)
    requires n >= 1
    ensures AgoText(n, unit) == "1 " + unit + " ago" <==> n == 1
  {
    if n != 1 {
      var plural := IntToString(n) + " " + unit + "s ago";
      assert |plural| > |"1 " + unit + " ago"|;
    }
  }

  /** No age within 30 days is rendered "1 day ago": the days branch only counts 2 to 6. */
  lemma NeverOneDayAgo(diff: int, date: string)
    requires diff < 30 * Day
    ensures FormatTimeAgo(diff, date) != "1 day ago"
  {
    var s := FormatTimeAgo(diff, date);
    if diff < Minute {
      assert s[0] != "1 day ago"[0];
    } else if diff < Hour {
      SingularExactlyForOne(diff / Minute, "minute");
      assert |s| >= 12;
    } else if diff < Day {
      if diff / Hour == 1 {
        assert |s| == 10;
      } else {
        assert |s| >= 11;
      }
    } else if diff < 2 * Day {
      assert s[0] != "1 day ago"[0];
    } else if diff < Week {
      assert |s| >= 10;
    } else {
      if diff / Week == 1 {
        assert |s| == 10;
      } else {
        assert |s| >= 11;
      }
    }
  }

  // ---------------------------------------------------------------------------------------
  // Reactions on posts (/react) and comments (/commentreact)

  /** The decoded body {post_id or comment_id, like}. */
  datatype ReactionRequest = ReactionRequest(targetId: int, like: int)

  /** The database calls that can fail in a reaction request. */
  datatype ReactionFault = LookupFails | WriteFails | CountsFail

  /**
   * handleReactions. The caller's id comes from the session middleware; req is None when the
   * body does not decode. Responses: 401, 400, 500 or 200 with the post's counts.
   */
  method HandleReactions(db: Database, userID: string, req: Option<ReactionRequest>, faults: set<ReactionFault>)
    returns (status: int)
    modifies db
    ensures (userID == "" || req.None? || (req.value.like != 0 && req.value.like != 1) ||
             LookupFails in faults || WriteFails in faults) ==> db.reactions == old(db.reactions)
    ensures userID == "" ==> status == 401
    ensures userID != "" && req.None? ==> status == 400
    ensures userID != "" && req.Some? && req.value.like != 0 && req.value.like != 1 ==> status == 400
    ensures userID != "" && req.Some? && (req.value.like == 0 || req.value.like == 1) ==>
              if LookupFails in faults || WriteFails in faults then status == 500
              else db.reactions == Toggled(old(db.reactions), (userID, req.value.targetId), req.value.like)
                   && status == (if CountsFail in faults then 500 else 200)
    ensures db.commentReactions == old(db.commentReactions) && db.posts == old(db.posts)
    ensures db.comments == old(db.comments) && db.postCategories == old(db.postCategories)
    ensures db.categories == old(db.categories)
  {
    if userID == "" {
      return 401;
    }
    if req.None? {
      return 400;
    }
    var like := req.value.like;
    if like != 0 && like != 1 {
      return 400;
    }
    if LookupFails in faults {
      return 500;
    }
    var key := (userID, req.value.targetId);
    if key !in db.reactions {
      if WriteFails in faults {
        return 500;
      }
      db.reactions := db.reactions[key := like];
    } else if db.reactions[key] == like {
      if WriteFails in faults {
        return 500;
      }
      db.reactions := db.reactions - {key};
    } else {
      if WriteFails in faults {
        return 500;
      }
      db.reactions := db.reactions[key := like];
    }
    if CountsFail in faults {
      return 500;
    }
    return 200;
  }

  /** handleCommentReactions: the same toggle on the comment reaction table. */
  method HandleCommentReactions(db: Database, userID: string, req: Option<ReactionRequest>, faults: set<ReactionFault>)
    returns (status: int)
    modifies db
    ensures (userID == "" || req.None? || (req.value.like != 0 && req.value.like != 1) ||
             LookupFails in faults || WriteFails in faults) ==> db.commentReactions == old(db.commentReactions)
    ensures userID == "" ==> status == 401
    ensures userID != "" && req.None? ==> status == 400
    ensures userID != "" && req.Some? && req.value.like != 0 && req.value.like != 1 ==> status == 400
    ensures userID != "" && req.Some? && (req.value.like == 0 || req.value.like == 1) ==>
              if LookupFails in faults || WriteFails in faults then status == 500
              else db.commentReactions == Toggled(old(db.commentReactions), (userID, req.value.targetId), req.value.like)
                   && status == (if CountsFail in faults then 500 else 200)
    ensures db.reactions == old(db.reactions) && db.posts == old(db.posts)
    ensures db.comments == old(db.comments) && db.postCategories == old(db.postCategories)
    ensures db.categories == old(db.categories)
  {
    if userID == "" {
      return 401;
    }
    if req.None? {
      return 400;
    }
    if req.value.like != 0 && req.value.like != 1 {
      return 400;
    }
    if LookupFails in faults {
      return 500;
    }
    if WriteFails in faults {
      return 500;
    }
    var key := (userID, req.value.targetId);
    var existing := db.commentReactions;
    if key !in existing {
      db.commentReactions := existing[key := req.value.like];
    } else if existing[key] == req.value.like {
      db.commentReactions := existing - {key};
    } else {
      db.commentReactions := existing[key := req.value.like];
    }
    status := if CountsFail in faults then 500 else 200;
  }

  // ---------------------------------------------------------------------------------------
  // POST /editcomment

  /** The database calls that can fail while editing a comment. */
  datatype EditFault = OwnerQueryFails | UpdateFails

  /**
   * handleEditComment, form fields passed in (formOk is false when ParseForm fails). Guards in
   * order: 401, 400 for the form, the comment id and an empty trimmed content, then 500/404
   * for the owner lookup, 403 for another user's comment, 500 for a failed update; success
   * stores the trimmed content and redirects (303).
   */
  method HandleEditComment(db: Database, userID: string, formOk: bool, commentIdField: string,
                           contentField: string, faults: set<EditFault>)
    returns (status: int)
    modifies db
    ensures status != 303 ==> db.comments == old(db.comments)
    ensures userID == "" ==> status == 401
    ensures userID != "" && (!formOk || Atoi(commentIdField).None? || TrimSpace(contentField) == "") ==> status == 400
    ensures status == 303 <==>
              userID != "" && formOk && Atoi(commentIdField).Some? && TrimSpace(contentField) != ""
              && OwnerQueryFails !in faults && UpdateFails !in faults
              && Atoi(commentIdField).value in old(db.comments)
              && old(db.comments)[Atoi(commentIdField).value].userId == userID
    ensures status == 303 ==>
              db.comments == old(db.comments)[Atoi(commentIdField).value :=
                old(db.comments)[Atoi(commentIdField).value].(content := TrimSpace(contentField))]
    ensures status == 403 ==> Atoi(commentIdField).Some? && Atoi(commentIdField).value in old(db.comments)
                              && old(db.comments)[Atoi(commentIdField).value].userId != userID
    ensures db.reactions == old(db.reactions) && db.commentReactions == old(db.commentReactions)
    ensures db.posts == old(db.posts) && db.postCategories == old(db.postCategories)
    ensures db.categories == old(db.categories)
  {
    if userID == "" {
      return 401;
    }
    if !formOk {
      return 400;
    }
    var commentID := Atoi(commentIdField);
    if commentID.None? {
      return 400;
    }
    var newContent := TrimSpace(contentField);
    if newContent == "" {
      return 400;
    }
    if OwnerQueryFails in faults {
      return 500;
    }
    if commentID.value !in db.comments {
      return 404;
    }
    var comment := db.comments[commentID.value];
    if comment.userId != userID {
      return 403;
    }
    if UpdateFails in faults {
      return 500;
    }
    db.comments := db.comments[commentID.value := comment.(content := newContent)];
    return 303;
  }

  // ---------------------------------------------------------------------------------------
  // scanPosts

  /**
   * scanPosts: a row that fails to scan aborts the listing at its index; otherwise one post
   * per id with every valid category of its rows appended.
   */
  method ScanPosts(rows: seq<Row>) returns (r: Result<seq<Post>, nat>)
    ensures r.Err? <==> HasBadRow(rows)
    ensures r.Err? ==> r.error < |rows| && rows[r.error].BadRow?
                       && forall j :: 0 <= j < r.error ==> rows[j].Row?
    ensures r.Ok? ==> r.value == Grouped(rows, false)
  {
    var postMap: map<int, Post> := map[];
    var order: seq<int> := [];
    var i := 0;
    while i < |rows|
      invariant 0 <= i <= |rows|
      invariant forall j :: 0 <= j < i ==> rows[j].Row?
      invariant Table(postMap, order) == Fold(rows[..i], false)
    {
      assert rows[..i + 1][..i] == rows[..i];
      if rows[i].BadRow? {
        return Err(i);
      }
      var row := rows[i];
      var cat := RowCategory(row);
      if row.post.id in postMap {
        if cat.Some? {
          var existingPost := postMap[row.post.id];
          postMap := postMap[row.post.id := existingPost.(categories := existingPost.categories + [cat.value])];
        }
      } else {
        var categories: seq<Category> := [];
        if cat.Some? {
          categories := categories + [cat.value];
          assert categories == [cat.value];
        }
        postMap := postMap[row.post.id := Post(row.post, categories)];
        order := order + [row.post.id];
      }
      i := i + 1;
    }
    assert rows[..i] == rows;
    FoldWellFormed(rows, false);
    var posts := CollectPosts(postMap, order);
    return Ok(posts);
  }
}
