// The forum tables that the post and API handlers read and write, held as maps, and the
// like/dislike toggle rule both handlers apply to the reaction tables.
module ForumDb {
  /** (user id, post or comment id): the primary key of the reaction tables. */
  type ReactionKey = (string, int)

  datatype PostRecord = PostRecord(userId: string, title: string, content: string, imagePath: string)

  datatype CommentRecord = CommentRecord(postId: int, userId: string, content: string)

  /** Every stored reaction is 1 (like) or 0 (dislike). */
  predicate LikeValues(t: map<ReactionKey, int>)
  {
    forall k :: k in t ==> t[k] == 0 || t[k] == 1
  }

  /**
   * The reaction toggle: with no reaction the value is stored, the same value again removes
   * it, a different value replaces it.
   */
  function Toggled(t: map<ReactionKey, int>, key: ReactionKey, like: int): (r: map<ReactionKey, int>)
    ensures key in r <==> !(key in t && t[key] == like)
    ensures key in r ==> r[key] == like
    ensures forall k :: k != key ==> (k in r <==> k in t)
    ensures forall k :: k != key && k in t ==> r[k] == t[k]
    ensures LikeValues(t) && (like == 0 || like == 1) ==> LikeValues(r)
  {
    if key !in t then t[key := like]
    else if t[key] == like then t - {key}
    else t[key := like]
  }

  /**
   * Toggling the same value twice restores the table when there was no reaction or the same
   * one; when a different reaction was stored, the second toggle removes the reaction.
   */
  lemma ToggleTwice(t: map<ReactionKey, int>, key: ReactionKey, like: int)
    ensures Toggled(Toggled(t, key, like), key, like) == (if key in t && t[key] != like then t - {key} else t)
  {
    var once := Toggled(t, key, like);
    var twice := Toggled(once, key, like);
    if key in t && t[key] == like {
      assert twice == t[key := like];
      assert t[key := like] == t;
    }
  }

  /** The tables: posts and comments by id, the two reaction tables and the category links. */
  class Database {
    var posts: map<int, PostRecord>
    var comments: map<int, CommentRecord>
    var reactions: map<ReactionKey, int>
    var commentReactions: map<ReactionKey, int>
    var postCategories: set<(int, int)>
    var categories: map<string, int>

    constructor ()
      ensures posts == map[] && comments == map[] && reactions == map[]
      ensures commentReactions == map[] && postCategories == {} && categories == map[]
    {
      posts := map[];
      comments := map[];
      reactions := map[];
      commentReactions := map[];
      postCategories := {};
      categories := map[];
    }
  }
}
