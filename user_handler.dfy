// authentication/user_handler.go: GetUserHandler's dispatch on the URL path, the two user
// listings, and the single-user lookup with its guards. The SELECTs themselves, ordering
// included, are parameters: the model takes the rows they return.
module UserHandler {
  import opened Wrappers
  import opened Strings
  import opened Validation

  /** The listing or lookup a request path selects. */
  datatype UserRoute = WithLastMessage | AllUsers | SingleUser(id: string)

  /**
   * GetUserHandler splits the path at '/': a fourth piece "with-last-message" selects the
   * chat listing, a path of at most three pieces or an empty fourth piece the full listing,
   * and any other fourth piece is a user id.
   */
  function Dispatch(path: string): (r: UserRoute)
    ensures var parts := Split(path, '/');
            && (r == WithLastMessage <==> |parts| > 3 && parts[3] == "with-last-message")
            && (r == AllUsers <==> |parts| <= 3 || parts[3] == "")
            && (r.SingleUser? ==> |parts| > 3 && r.id == parts[3] && r.id != "" && r.id != "with-last-message")
            && (r.SingleUser? ==> '/' !in r.id)
  {
    var parts := Split(path, '/');
    if |parts| > 3 && parts[3] == "with-last-message" then WithLastMessage
    else if |parts| <= 3 || parts[3] == "" then AllUsers
    else SingleUser(parts[3])
  }

  lemma ApiUsersSplit()
    ensures Split("/api/users", '/') == ["", "api", "users"]
  {
    assert "/api/users" == "" + ['/'] + "api" + ['/'] + "users";
    SplitThree("", "api", "users", '/');
  }

  lemma UsersPathSplit(id: string)
    requires '/' !in id
    ensures Split("/api/users/" + id, '/') == ["", "api", "users", id]
  {
    assert "/api/users/" + id == "" + ['/'] + "api" + ['/'] + "users" + ['/'] + id;
    SplitFour("", "api", "users", id, '/');
  }

  /** "/api/users" lists everyone. */
  lemma ListingPath()
    ensures Dispatch("/api/users") == AllUsers
  {
    ApiUsersSplit();
  }

  /**
   * "/api/users/" followed by a piece without '/' lists everyone when the piece is empty,
   * lists chat partners for "with-last-message", and otherwise looks the piece up as an id.
   */
  lemma UserPath(id: string)
    requires '/' !in id
    ensures id == "" ==> Dispatch("/api/users/" + id) == AllUsers
    ensures id == "with-last-message" ==> Dispatch("/api/users/" + id) == WithLastMessage
    ensures id != "" && id != "with-last-message" ==> Dispatch("/api/users/" + id) == SingleUser(id)
  {
    UsersPathSplit(id);
  }

  /** The columns every user query selects. */
  datatype UserFields = UserFields(id: string, nickname: string, email: string, profilePic: Option<string>, isOnline: bool)

  /** A row of the user listing, or one whose Scan fails. */
  datatype UserRow = BadUserRow | UserRow(fields: UserFields)

  /** A row of the chat-partner listing: the user and the time of the last message exchanged. */
  datatype PartnerRow = BadPartnerRow | PartnerRow(fields: UserFields, lastMessageTime: Option<string>)

  datatype UserResponse =
    UserResponse(id: string, nickname: string, userName: string, email: string, profilePic: string, isOnline: bool)

  datatype PartnerResponse = PartnerResponse(user: UserResponse, lastMessageTime: string)

  /**
   * UserResponse from the scanned columns: a NULL picture becomes "", and the user name,
   * which no query selects, is always the nickname.
   */
  function ToResponse(f: UserFields): (u: UserResponse)
    ensures u.id == f.id && u.nickname == f.nickname && u.email == f.email && u.isOnline == f.isOnline
    ensures u.userName == f.nickname
    ensures f.profilePic.None? ==> u.profilePic == ""
    ensures f.profilePic.Some? ==> u.profilePic == f.profilePic.value
  {
    UserResponse(f.id, f.nickname, f.nickname, f.email, if f.profilePic.Some? then f.profilePic.value else "", f.isOnline)
  }

  /** The rows that scan, in query order, as responses. */
  function UsersListing(rows: seq<UserRow>): (r: seq<UserResponse>)
    ensures |r| <= |rows|
    ensures forall i :: 0 <= i < |r| ==> r[i].userName == r[i].nickname
    ensures (forall i :: 0 <= i < |rows| ==> rows[i].UserRow?) ==>
              |r| == |rows| && forall i :: 0 <= i < |rows| ==> r[i] == ToResponse(rows[i].fields)
  {
    if rows == [] then []
    else
      var init := UsersListing(rows[..|rows| - 1]);
      var last := rows[|rows| - 1];
      if last.BadUserRow? then init else init + [ToResponse(last.fields)]
  }

  /** The rows that scan, with a NULL last-message time as "". */
  function PartnersListing(rows: seq<PartnerRow>): (r: seq<PartnerResponse>)
    ensures |r| <= |rows|
    ensures forall i :: 0 <= i < |r| ==> r[i].user.userName == r[i].user.nickname
    ensures (forall i :: 0 <= i < |rows| ==> rows[i].PartnerRow?) ==>
              |r| == |rows|
              && forall i :: 0 <= i < |rows| ==>
                   r[i].user == ToResponse(rows[i].fields)
                   && r[i].lastMessageTime == (if rows[i].lastMessageTime.Some? then rows[i].lastMessageTime.value else "")
  {
    if rows == [] then []
    else
      var init := PartnersListing(rows[..|rows| - 1]);
      var last := rows[|rows| - 1];
      if last.BadPartnerRow? then init
      else init + [PartnerResponse(ToResponse(last.fields), if last.lastMessageTime.Some? then last.lastMessageTime.value else "")]
  }

  /** getAllUsers: 500 when the query fails, otherwise every row that scans ([] when none does). */
  method GetAllUsers(query: Option<seq<UserRow>>) returns (status: int, users: seq<UserResponse>)
    ensures status == 500 <==> query.None?
    ensures status == 200 <==> query.Some?
    ensures query.Some? ==> users == UsersListing(query.value)
    ensures query.None? ==> users == []
  {
    if query.None? {
      return 500, [];
    }
    var rows := query.value;
    users := [];
    var i := 0;
    while i < |rows|
      invariant 0 <= i <= |rows|
      invariant users == UsersListing(rows[..i])
    {
      assert rows[..i + 1][..i] == rows[..i];
      if rows[i].UserRow? {
        users := users + [ToResponse(rows[i].fields)];
      }
      i := i + 1;
    }
    assert rows[..i] == rows;
    status := 200;
  }

  /**
   * getUsersWithLastMessage: 400 without current_user, 500 when the query fails, otherwise
   * every row that scans. query(currentUser) is what the SELECT returns for that user.
   */
  method GetUsersWithLastMessage(currentUser: string, query: string -> Option<seq<PartnerRow>>)
    returns (status: int, users: seq<PartnerResponse>)
    ensures status == 400 <==> currentUser == ""
    ensures status == 500 <==> currentUser != "" && query(currentUser).None?
    ensures status == 200 ==> query(currentUser).Some? && users == PartnersListing(query(currentUser).value)
    ensures status in {200, 400, 500}
    ensures status != 200 ==> users == []
  {
    if currentUser == "" {
      return 400, [];
    }
    var result := query(currentUser);
    if result.None? {
      return 500, [];
    }
    users := ScanPartners(result.value);
    status := 200;
  }

  /** The rows.Next loop of getUsersWithLastMessage: rows that fail to scan are skipped. */
  method ScanPartners(rows: seq<PartnerRow>) returns (users: seq<PartnerResponse>)
    ensures users == PartnersListing(rows)
  {
    users := [];
    var i := 0;
    while i < |rows|
      invariant 0 <= i <= |rows|
      invariant users == PartnersListing(rows[..i])
    {
      assert rows[..i + 1][..i] == rows[..i];
      if rows[i].PartnerRow? {
        var f := rows[i].fields;
        var last := if rows[i].lastMessageTime.Some? then rows[i].lastMessageTime.value else "";
        users := users + [PartnerResponse(ToResponse(f), last)];
      }
      i := i + 1;
    }
    assert rows[..i] == rows;
  }

  /** What QueryRow(...).Scan gives for one id. */
  datatype Lookup = NoRows | LookupFails | Found(fields: UserFields)

  /** Path pieces that name other endpoints and are never looked up as ids. */
  const ReservedIds: set<string> := {"stats", "profile", "profile-pic"}

  /** None of the reserved names has the UUID shape, so ValidateUserID would refuse them as well. */
  lemma ReservedAreNotUuids()
    ensures forall r :: r in ReservedIds ==> !UuidShape(r)
  {
    assert |"stats"| != 36 && |"profile"| != 36 && |"profile-pic"| != 36;
  }

  datatype SingleUserResult = SingleUserResult(status: int, user: Option<UserResponse>)

  /**
   * getSingleUser: 400 for a reserved name or a non-UUID id before any lookup, 404 when no
   * row matches, 500 when the query fails, otherwise the user.
   */
  function GetSingleUser(userID: string, lookup: string -> Lookup): (r: SingleUserResult)
    ensures r.status == 400 <==> userID in ReservedIds || !UuidShape(userID)
    ensures r.status == 404 <==> UuidShape(userID) && lookup(userID).NoRows?
    ensures r.status == 500 <==> UuidShape(userID) && lookup(userID).LookupFails?
    ensures r.status == 200 <==> UuidShape(userID) && lookup(userID).Found?
    ensures r.user.Some? <==> r.status == 200
    ensures r.user.Some? ==> r.user.value == ToResponse(lookup(userID).fields) && r.user.value.id == lookup(userID).fields.id
  {
    ReservedAreNotUuids();
    if userID in ReservedIds then SingleUserResult(400, None)
    else if ValidateUserID(userID).Some? then SingleUserResult(400, None)
    else
      match lookup(userID)
      case NoRows => SingleUserResult(404, None)
      case LookupFails => SingleUserResult(500, None)
      case Found(f) => SingleUserResult(200, Some(ToResponse(f)))
  }

  /** The body GetUserHandler writes. */
  datatype UserBody = NoBody | Everyone(users: seq<UserResponse>) | Partners(partners: seq<PartnerResponse>) | One(user: UserResponse)

  /** GetUserHandler: the route the path selects, served. */
  method GetUser(path: string, currentUser: string, allUsers: Option<seq<UserRow>>,
                 partners: string -> Option<seq<PartnerRow>>, lookup: string -> Lookup)
    returns (status: int, body: UserBody)
    ensures Dispatch(path) == AllUsers ==>
              (status == 200 <==> allUsers.Some?)
              && (status == 200 ==> body == Everyone(UsersListing(allUsers.value)))
    ensures Dispatch(path) == WithLastMessage ==>
              (status == 400 <==> currentUser == "")
              && (status == 200 ==> partners(currentUser).Some?
                                    && body == Partners(PartnersListing(partners(currentUser).value)))
    ensures Dispatch(path).SingleUser? ==>
              var r := GetSingleUser(Dispatch(path).id, lookup);
              status == r.status && (body == if r.user.Some? then One(r.user.value) else NoBody)
    ensures status != 200 ==> body == NoBody
  {
    match Dispatch(path)
    case WithLastMessage =>
      var users;
      status, users := GetUsersWithLastMessage(currentUser, partners);
      body := if status == 200 then Partners(users) else NoBody;
    case AllUsers =>
      var users;
      status, users := GetAllUsers(allUsers);
      body := if status == 200 then Everyone(users) else NoBody;
    case SingleUser(id) =>
      var r := GetSingleUser(id, lookup);
      status := r.status;
      body := if r.user.Some? then One(r.user.value) else NoBody;
  }
}
