// controllers/profile_handler.go: which profile a request names, whether it is an update,
// the flags of the displayed profile, and the guards of a profile-picture upload. Queries,
// template rendering and image processing are parameters or fault flags.
module ProfileHandler {
  import opened Wrappers
  import opened Strings

  const ProfilePrefix: string := "/profile/"

  /** The user a profile URL names: the path with any "/profile/" prefix removed. */
  function TargetUserID(path: string): (target: string)
    ensures HasPrefix(path, ProfilePrefix) ==> ProfilePrefix + target == path
    ensures !HasPrefix(path, ProfilePrefix) ==> target == path
    ensures |target| <= |path|
  {
    TrimPrefix(path, ProfilePrefix)
  }

  lemma TargetOfProfilePath(id: string)
    ensures TargetUserID(ProfilePrefix + id) == id
  {
    assert (ProfilePrefix + id)[..|ProfilePrefix|] == ProfilePrefix;
    assert (ProfilePrefix + id)[|ProfilePrefix|..] == id;
  }

  /** The signed-in user: the id of a valid session, "" without one. */
  function CurrentUserID(session: Option<string>): (id: string)
    ensures session.Some? ==> id == session.value
    ensures session.None? ==> id == ""
  {
    if session.Some? then session.value else ""
  }

  datatype ProfileAction =
    | Update(userID: string)
    | Display(target: string, current: string, isLoggedIn: bool)

  /**
   * ServeHTTP: a POST whose target is the current user's id updates that profile; every other
   * request displays the target's profile.
   */
  function Route(verb: string, path: string, session: Option<string>): (a: ProfileAction)
    ensures a.Update? <==> verb == "POST" && TargetUserID(path) == CurrentUserID(session)
    ensures a.Update? ==> a.userID == CurrentUserID(session)
    ensures a.Display? ==>
              a.target == TargetUserID(path) && a.current == CurrentUserID(session) && a.isLoggedIn == session.Some?
  {
    var target := TargetUserID(path);
    var current := CurrentUserID(session);
    if verb == "POST" && target == current then Update(current) else Display(target, current, session.Some?)
  }

  /** Another user's profile is never updated: an update is always of the signed-in user. */
  lemma UpdateOnlyOwn(verb: string, id: string, session: Option<string>)
    requires session.Some? && session.value != id
    ensures Route(verb, ProfilePrefix + id, session).Display?
  {
    TargetOfProfilePath(id);
  }

  /**
   * Without a session the current id is "", so a POST to "/profile/" is routed to the update
   * for the empty id.
   */
  lemma AnonymousPostIsUpdate()
    ensures Route("POST", ProfilePrefix, None) == Update("")
  {
    TargetOfProfilePath("");
    assert ProfilePrefix + "" == ProfilePrefix;
  }

  /** The values the profile template receives. */
  datatype ProfileData = ProfileData(
    username: string, email: string, profilePic: Option<string>,
    isLoggedIn: bool, isOwnProfile: bool, userID: string, errorMessage: string,
    postCount: int, commentCount: int, likesReceived: int, unreadCount: int)

  /** The counting queries: a failed one is logged and its count stays 0. */
  datatype ProfileCounts = ProfileCounts(posts: Option<int>, comments: Option<int>, likes: Option<int>)

  function CountOr0(c: Option<int>): (n: int)
    ensures c.Some? ==> n == c.value
    ensures c.None? ==> n == 0
  {
    if c.Some? then c.value else 0
  }

  datatype ProfileRow = ProfileRow(username: string, email: string, profilePic: Option<string>)

  datatype DisplayResult = NotFound | RenderError | Rendered(data: ProfileData)

  /**
   * displayUserProfile: 404 when the target has no row; the unread count is queried only for
   * a signed-in user viewing their own profile; IsOwnProfile is target == current whether or
   * not anyone is signed in.
   */
  function DisplayUserProfile(target: string, current: string, isLoggedIn: bool, row: Option<ProfileRow>,
                              counts: ProfileCounts, unread: string -> Option<int>, templateFails: bool)
    : (r: DisplayResult)
    ensures r == NotFound <==> row.None?
    ensures r == RenderError <==> row.Some? && templateFails
    ensures r.Rendered? ==>
              var d := r.data;
              d.userID == target && d.isLoggedIn == isLoggedIn && (d.isOwnProfile <==> target == current)
              && d.username == row.value.username && d.email == row.value.email && d.profilePic == row.value.profilePic
              && d.postCount == CountOr0(counts.posts) && d.commentCount == CountOr0(counts.comments)
              && d.likesReceived == CountOr0(counts.likes) && d.errorMessage == ""
    ensures r.Rendered? && !(isLoggedIn && target == current) ==> r.data.unreadCount == 0
    ensures r.Rendered? && isLoggedIn && target == current ==> r.data.unreadCount == CountOr0(unread(current))
  {
    if row.None? then NotFound
    else
      var unreadCount := if isLoggedIn && target == current then CountOr0(unread(current)) else 0;
      var d := ProfileData(row.value.username, row.value.email, row.value.profilePic, isLoggedIn, target == current,
                           target, "", CountOr0(counts.posts), CountOr0(counts.comments), CountOr0(counts.likes),
                           unreadCount);
      if templateFails then RenderError else Rendered(d)
  }

  /** Without a session, the bare "/profile/" page is marked as one's own. */
  lemma AnonymousOwnProfile(row: ProfileRow, counts: ProfileCounts, unread: string -> Option<int>)
    ensures var a := Route("GET", ProfilePrefix, None);
            a.Display?
            && var r := DisplayUserProfile(a.target, a.current, a.isLoggedIn, Some(row), counts, unread, false);
               r.Rendered? && r.data.isOwnProfile && !r.data.isLoggedIn && r.data.unreadCount == 0
  {
    TargetOfProfilePath("");
    assert ProfilePrefix + "" == ProfilePrefix;
  }

  // ---------------------------------------------------------------------------------------
  // Upload

  /** The largest accepted upload, 20 << 20 bytes. */
  const MaxUploadSize: int := 20 * 1024 * 1024

  /** The content types isValidImageType accepts. */
  const ValidTypes: map<string, bool> := map["image/jpeg" := true, "image/png" := true, "image/gif" := true]

  /** isValidImageType: a lookup in ValidTypes, false for a missing key. */
  function IsValidImageType(contentType: string): (ok: bool)
    ensures ok <==> contentType in {"image/jpeg", "image/png", "image/gif"}
  {
    if contentType in ValidTypes then ValidTypes[contentType] else false
  }

  /** The upload field: missing (with FormFile's error text), or a file with its header. */
  datatype Upload = NoFile(err: string) | File(size: int, contentType: string)

  /** The steps of handleProfileUpdate that can fail. */
  datatype UpdateFault = ProfileQueryFails | TemplateFails | FormParseFails | OldPicQueryFails | DbUpdateFails

  /** The messages handleProfileUpdate shows on the profile page. */
  datatype UploadError =
    | FormTooLarge
    | UploadFailed(err: string)
    | ImageTooLarge
    | InvalidType
    | OldPicUnreadable
    | ProcessFailed(err: string)
    | DbUpdateFailed

  function Message(e: UploadError): (m: string)
    ensures m != ""
  {
    match e
    case FormTooLarge => "File size too large. Maximum size is 20MB"
    case UploadFailed(err) => "Error uploading image: " + err
    case ImageTooLarge => "Image size must be less than 20MB"
    case InvalidType => "Invalid file type. Please upload an image (JPEG, PNG, GIF)"
    case OldPicUnreadable => "Error retrieving old profile picture"
    case ProcessFailed(err) => "Error processing image: " + err
    case DbUpdateFailed => "Error updating profile picture in database"
  }

  /**
   * What handleProfileUpdate does: an error page (500), the profile page again with a
   * message, or a redirect to the profile. removeNew is the freshly processed image when it
   * is deleted again; removeOld says the previous picture's file is deleted.
   */
  datatype UpdateResult =
    | UpdateServerError
    | UpdatePage(data: ProfileData, error: UploadError, removeNew: Option<string>)
    | UpdateRedirect(location: string, removeOld: bool)

  /**
   * handleProfileUpdate for userID. current is the user's row (profile_pic COALESCEd to ""),
   * oldPic the profile_pic column read again before the update, and processImage the result
   * of ImageHandler.ProcessImage: the new image's path or an error text. The checks run in
   * order: the form, the file, its size, its type, the old picture, processing, the UPDATE.
   */
  function HandleProfileUpdate(userID: string, current: Option<ProfileRow>, upload: Upload, oldPic: Option<string>,
                               processImage: Result<string, string>, faults: set<UpdateFault>)
    : (r: UpdateResult)
    ensures r == UpdateServerError <==> current.None? || ProfileQueryFails in faults || TemplateFails in faults
    ensures r.UpdatePage? ==>
              r.data.isLoggedIn && r.data.isOwnProfile && r.data.userID == userID
              && r.data.errorMessage == Message(r.error)
    ensures r.UpdatePage? && r.error == ImageTooLarge ==> upload.File? && upload.size > MaxUploadSize
    ensures r.UpdatePage? && r.error == InvalidType ==>
              upload.File? && upload.size <= MaxUploadSize && !IsValidImageType(upload.contentType)
    ensures r.UpdatePage? && r.removeNew.Some? ==>
              r.error == DbUpdateFailed && processImage.Ok? && r.removeNew.value == processImage.value
    ensures r.UpdateRedirect? ==>
              upload.File? && upload.size <= MaxUploadSize && IsValidImageType(upload.contentType)
              && processImage.Ok? && OldPicQueryFails !in faults && DbUpdateFails !in faults && FormParseFails !in faults
              && r.location == ProfilePrefix + userID
              && (r.removeOld <==> oldPic.Some? && oldPic.value != "")
  {
    if current.None? || ProfileQueryFails in faults then UpdateServerError
    else if TemplateFails in faults then UpdateServerError
    else
      var row := current.value;
      var page := ProfileData(row.username, row.email, row.profilePic, true, true, userID, "", 0, 0, 0, 0);
      var error :=
        if FormParseFails in faults then Some(FormTooLarge)
        else if upload.NoFile? then Some(UploadFailed(upload.err))
        else if upload.size > MaxUploadSize then Some(ImageTooLarge)
        else if !IsValidImageType(upload.contentType) then Some(InvalidType)
        else if OldPicQueryFails in faults then Some(OldPicUnreadable)
        else if processImage.Err? then Some(ProcessFailed(processImage.error))
        else if DbUpdateFails in faults then Some(DbUpdateFailed)
        else None;
      if error.Some? then
        var removeNew := if error.value == DbUpdateFailed then Some(processImage.value) else None;
        UpdatePage(page.(errorMessage := Message(error.value)), error.value, removeNew)
      else UpdateRedirect(ProfilePrefix + userID, oldPic.Some? && oldPic.value != "")
  }

  /** An oversized file is refused for its size whatever its type, once the form has parsed. */
  lemma OversizeBeforeType(userID: string, row: ProfileRow, size: int, contentType: string, oldPic: Option<string>,
                           processImage: Result<string, string>, faults: set<UpdateFault>)
    requires size > MaxUploadSize
    requires ProfileQueryFails !in faults && TemplateFails !in faults && FormParseFails !in faults
    ensures var r := HandleProfileUpdate(userID, Some(row), File(size, contentType), oldPic, processImage, faults);
            r.UpdatePage? && r.error == ImageTooLarge && r.removeNew.None?
  {
  }
}
