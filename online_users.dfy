// The onlineUsers registry of authentication/server.go: user id to username.
module OnlineUsers {
  /** One {"id", "username"} entry of GetOnlineUsers. */
  datatype OnlineUser = OnlineUser(id: string, username: string)

  predicate DistinctIds(list: seq<OnlineUser>)
  {
    forall a, b :: 0 <= a < b < |list| ==> list[a].id != list[b].id
  }

  class Registry {
    var users: map<string, string>

    constructor ()
      ensures users == map[]
    {
      users := map[];
    }

    /** AddOnlineUser: sets users[userID], overwriting an earlier name. */
    method AddOnlineUser(userID: string, username: string)
      modifies this
      ensures users == old(users)[userID := username]
      ensures forall id :: id in old(users) && id != userID ==> id in users && users[id] == old(users)[id]
    {
      users := users[userID := username];
    }

    /** RemoveOnlineUser: deletes only that id. */
    method RemoveOnlineUser(userID: string)
      modifies this
      ensures users == old(users) - {userID}
      ensures userID !in old(users) ==> users == old(users)
    {
      users := users - {userID};
    }

    /** GetOnlineUsers: one entry per key, in some order; the map is only read. */
    method GetOnlineUsers() returns (list: seq<OnlineUser>)
      ensures |list| == |users|
      ensures DistinctIds(list)
      ensures forall k :: 0 <= k < |list| ==> list[k].id in users && users[list[k].id] == list[k].username
      ensures forall id :: id in users ==> exists k :: 0 <= k < |list| && list[k].id == id
    {
      list := [];
      var remaining := users.Keys;
      while remaining != {}
        invariant remaining <= users.Keys
        invariant |list| + |remaining| == |users|
        invariant DistinctIds(list)
        invariant forall k :: 0 <= k < |list| ==> list[k].id in users && list[k].id !in remaining
        invariant forall k :: 0 <= k < |list| ==> users[list[k].id] == list[k].username
        invariant forall id :: id in users && id !in remaining ==> exists k :: 0 <= k < |list| && list[k].id == id
        decreases |remaining|
      {
        var userID :| userID in remaining;
        ghost var before := list;
        list := list + [OnlineUser(userID, users[userID])];
        remaining := remaining - {userID};
        assert forall k :: 0 <= k < |before| ==> list[k] == before[k];
        assert list[|before|].id == userID;
      }
    }
  }
}
