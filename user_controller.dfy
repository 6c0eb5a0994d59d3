/**
 * controllers/user.controller.js: registration, the token pair and its
 * rotation, logout, the password and account-detail changes, the channel page,
 * the watch history and the account deletion cascade.
 *
 * `user.model.js` calls `jwt.sign` without importing `jwt`, so as written
 * every token issue throws a `ReferenceError` (`IssueTokensAsWritten`); the
 * rest of the model issues tokens as the code evidently intends
 * (`IssueTokens`).  A signed token is a `Token` whose serial is drawn from the
 * store's id counter; whether `jwt.verify` accepts a presented token is a
 * parameter.
 */
module UserController {
  import opened Wrappers
  import opened ObjectIds
  import opened Seqs
  import opened Text
  import opened Paging
  import opened Sorting
  import opened Envelope
  import opened UserModel
  import opened VideoModel
  import opened Records
  import opened StoreState
  import SubscriptionController
  import CommentController
  import VideoController

  /** The `statusCode` the token helper's `catch` puts its message in. */
  const TokenFailure := "Something went wrong when generating access and refresh tokens"

  /** The `statusCode` `refreshTheTokens`' `catch` puts its message in. */
  const RefreshFailure := "Failed to refresh access token"

  /** The `TypeError` a property read on a `null` document throws. */
  function NullRead(property: string): string {
    "Cannot read properties of null (reading '" + property + "')"
  }

  datatype Tokens = Tokens(accessToken: Token, refreshToken: Token)

  /**
   * `generateAccessAndRefreshToken` as written: `user.generateAccessToken()`
   * throws (`jwt` is not defined in `user.model.js`), or reads a property of
   * `null` when the user is gone; either way the `catch` rethrows with the
   * message in the status position and nothing is saved.
   */
  method IssueTokensAsWritten(st: Store, userId: Id) returns (r: Lookup<Tokens>)
    ensures r.Stop? && r.error.statusCode == Text(TokenFailure) && !r.error.success
    ensures IndexOfId(st.users, UserId, userId).Some? ==> r.error.message == "jwt is not defined"
    ensures IndexOfId(st.users, UserId, userId).None? ==> r.error.message == NullRead("generateAccessToken")
  {
    if IndexOfId(st.users, UserId, userId).Some? {
      r := Stop(NewApiError(Text(TokenFailure), Some("jwt is not defined"), []));
    } else {
      r := Stop(NewApiError(Text(TokenFailure), Some(NullRead("generateAccessToken")), []));
    }
  }

  /**
   * The refresh check of `refreshTheTokens` passes for `t`: the user its claims
   * name exists and has `t` saved as its refresh token.
   */
  predicate Accepts(users: seq<User>, t: Token) {
    match IndexOfId(users, UserId, t.claims.id)
    case Some(k) => users[k].refreshToken == Some(t)
    case None => false
  }

  /**
   * `generateAccessAndRefreshToken` with `jwt` in scope: both tokens are signed
   * for the stored user and the refresh token is saved on it, replacing any
   * earlier one, so it is the only refresh token of that user accepted
   * afterwards.  A missing user still reads a property of `null`.
   */
  method IssueTokens(st: Store, userId: Id) returns (r: Lookup<Tokens>)
    requires st.Valid()
    modifies st
    ensures st.Valid()
    ensures IndexOfId(old(st.users), UserId, userId).None? ==>
      r == Stop(NewApiError(Text(TokenFailure), Some(NullRead("generateAccessToken")), [])) && unchanged(st)
    ensures IndexOfId(old(st.users), UserId, userId).Some? ==> (
      var k := IndexOfId(old(st.users), UserId, userId).value;
      var u := old(st.users)[k];
      var refresh := Token(old(st.nextId) + 1, RefreshClaimsOf(u));
      r == Found(k, Tokens(Token(old(st.nextId), AccessClaimsOf(u)), refresh))
      && st.Snapshot() == old(st.Snapshot()).(users := old(st.users)[k := u.(refreshToken := Some(refresh))],
                                              nextId := old(st.nextId) + 2))
    ensures r.Found? ==> forall t: Token :: t.claims.id == userId ==> (Accepts(st.users, t) <==> t == r.doc.refreshToken)
  {
    match IndexOfId(st.users, UserId, userId)
    case None =>
      r := Stop(NewApiError(Text(TokenFailure), Some(NullRead("generateAccessToken")), []));
    case Some(k) =>
      var u := st.users[k];
      ghost var before := st.Snapshot();
      var a := st.NewId();
      var b := st.NewId();
      assert st.Snapshot() == before.(nextId := before.nextId + 2);
      var tokens := Tokens(Token(a, AccessClaimsOf(u)), Token(b, RefreshClaimsOf(u)));
      var saved := u.(refreshToken := Some(tokens.refreshToken));
      SameNamesApart(st.users, k, saved, st.nextId);
      st.ReplaceUser(k, saved);
      assert st.Snapshot() == before.(users := before.users[k := saved], nextId := before.nextId + 2);
      IndexOfIdUnique(st.users, UserId, st.nextId, userId, k);
      AcceptsOnlySaved(st.users, k, userId);
      r := Found(k, tokens);
  }

  /** A token naming the user at `k`, found by its id, is accepted exactly when it is the one saved. */
  lemma AcceptsOnlySaved(users: seq<User>, k: nat, userId: Id)
    requires k < |users| && IndexOfId(users, UserId, userId) == Some(k)
    ensures forall t: Token :: t.claims.id == userId ==> (Accepts(users, t) <==> users[k].refreshToken == Some(t))
  {
  }

  /**
   * `logoutUser`: `$unset` of the stored refresh token of the requester (the
   * update finds nothing when the account is gone); no refresh token of theirs
   * is accepted afterwards.
   */
  method Logout(st: Store, me: Id) returns (o: Outcome<()>)
    requires st.Valid()
    modifies st
    ensures st.Valid()
    ensures o == Reply(200, 200, Blank(EmptyObject), "User has been logged out")
    ensures IndexOfId(old(st.users), UserId, me).None? ==> unchanged(st)
    ensures IndexOfId(old(st.users), UserId, me).Some? ==> (
      var k := IndexOfId(old(st.users), UserId, me).value;
      st.Snapshot() == old(st.Snapshot()).(users := old(st.users)[k := old(st.users)[k].(refreshToken := None)]))
    ensures forall t: Token :: t.claims.id == me ==> !Accepts(st.users, t)
  {
    var found := IndexOfId(st.users, UserId, me);
    if found.Some? {
      var k := found.value;
      var cleared := st.users[k].(refreshToken := None);
      SameNamesApart(st.users, k, cleared, st.nextId);
      st.ReplaceUser(k, cleared);
      IndexOfIdUnique(st.users, UserId, st.nextId, me, k);
    }
    o := Reply(200, 200, Blank(EmptyObject), "User has been logged out");
  }

  /**
   * The checks of `refreshTheTokens` before it issues the new pair: a token
   * must be presented, `jwt.verify` must accept it, its user must exist, and
   * the presented token must be the saved one.  Each failure is rethrown by
   * the `catch` with its message and the failure text in the status position.
   */
  function RefreshCheck(users: seq<User>, presented: Option<Token>, verified: bool): (r: Lookup<User>)
    ensures r.Found? <==> presented.Some? && verified && Accepts(users, presented.value)
    ensures r.Found? ==> (r.index < |users| && r.doc == users[r.index]
      && r.doc.id == presented.value.claims.id && r.doc.refreshToken == presented)
    ensures r.Stop? ==> r.error.statusCode == Text(RefreshFailure) && !r.error.success
    ensures presented.None? ==> r.Stop? && r.error.message == "Access token is required"
  {
    var fail := (message: string) => Stop(NewApiError(Text(RefreshFailure), Some(message), []));
    if presented.None? then fail("Access token is required")
    else if !verified then fail("invalid signature")
    else match IndexOfId(users, UserId, presented.value.claims.id)
      case None => fail(NullRead("refreshToken"))
      case Some(k) =>
        if users[k].refreshToken != presented then fail("Access token is expired")
        else Found(k, users[k])
  }

  /** The reply body of a refresh: the user as read before the rotation and the new pair. */
  datatype RefreshPayload = RefreshPayload(user: User, accessToken: Token, newRefreshToken: Token)

  /**
   * `refreshTheTokens`: when the check passes a new pair is issued and the
   * new refresh token replaces the presented one, so presenting the old token
   * again fails the check; otherwise nothing changes.
   */
  method RefreshTheTokens(st: Store, presented: Option<Token>, verified: bool) returns (o: Outcome<RefreshPayload>)
    requires st.Valid()
    modifies st
    ensures st.Valid()
    ensures RefreshCheck(old(st.users), presented, verified).Stop? ==>
      o == Failed(RefreshCheck(old(st.users), presented, verified).error) && unchanged(st)
    ensures RefreshCheck(old(st.users), presented, verified).Found? ==> (
      var check := RefreshCheck(old(st.users), presented, verified);
      o.Replied? && o.http == 200 && o.body.statusCode == 200
      && o.body.message == "Access token refreshed successfully"
      && o.body.data.Doc? && o.body.data.value.user == check.doc
      && st.Snapshot() == old(st.Snapshot()).(
           users := old(st.users)[check.index := check.doc.(refreshToken := Some(o.body.data.value.newRefreshToken))],
           nextId := old(st.nextId) + 2)
      && Accepts(st.users, o.body.data.value.newRefreshToken)
      && RefreshCheck(st.users, presented, verified).Stop?)
  {
    var check := RefreshCheck(st.users, presented, verified);
    if check.Stop? {
      o := Failed(check.error);
      return;
    }
    ghost var stale := check.doc.refreshToken.value;
    assert stale.serial < st.nextId by {
      assert AccountOk(st.users[check.index], st.nextId);
    }
    var issued := IssueTokens(st, check.doc.id);
    IndexOfIdUnique(old(st.users), UserId, old(st.nextId), check.doc.id, check.index);
    var data := RefreshPayload(check.doc, issued.doc.accessToken, issued.doc.refreshToken);
    o := Reply(200, 200, Doc(data), "Access token refreshed successfully");
  }

  /**
   * `changeCurrentPassword`: both fields are required (400 as a reply), the
   * current password must match (401); then the new password is saved and the
   * pre-save hook hashes it, so afterwards exactly the new text is accepted.
   */
  method ChangeCurrentPassword(st: Store, me: Id, currentPassword: Option<string>, newPassword: Option<string>)
    returns (o: Outcome<()>)
    requires st.Valid()
    modifies st
    ensures st.Valid()
    ensures !(Truthy(currentPassword) && Truthy(newPassword)) ==>
      o == Reply(400, 400, Blank(EmptyObject), "All fields are required!") && unchanged(st)
    ensures Truthy(currentPassword) && Truthy(newPassword) && IndexOfId(old(st.users), UserId, me).None? ==>
      o == Crash(NullRead("isPasswordCorrect")) && unchanged(st)
    ensures Truthy(currentPassword) && Truthy(newPassword) && IndexOfId(old(st.users), UserId, me).Some? ==> (
      var k := IndexOfId(old(st.users), UserId, me).value;
      (!IsPasswordCorrect(old(st.users)[k], currentPassword.value) ==>
        o == Throw(401, "Current Password is incorrect!") && unchanged(st))
      && (IsPasswordCorrect(old(st.users)[k], currentPassword.value) ==>
        o == Reply(200, 200, Blank(EmptyObject), "Password changed successfully")
        && st.Snapshot() == old(st.Snapshot()).(users := old(st.users)[k := old(st.users)[k].(password := Hashed(newPassword.value))])
        && forall c :: IsPasswordCorrect(st.users[k], c) <==> c == newPassword.value))
  {
    if !(Truthy(currentPassword) && Truthy(newPassword)) {
      o := Reply(400, 400, Blank(EmptyObject), "All fields are required!");
      return;
    }
    match IndexOfId(st.users, UserId, me)
    case None =>
      o := Crash(NullRead("isPasswordCorrect"));
    case Some(k) =>
      var u := st.users[k];
      if !IsPasswordCorrect(u, currentPassword.value) {
        o := Throw(401, "Current Password is incorrect!");
      } else {
        var saved := PreSave(u.(password := Plain(newPassword.value)), true);
        SameNamesApart(st.users, k, saved, st.nextId);
        st.ReplaceUser(k, saved);
        o := Reply(200, 200, Blank(EmptyObject), "Password changed successfully");
      }
  }

  /** Some other user than the one at position `k` has this email. */
  predicate EmailTakenByOther(users: seq<User>, k: nat, email: string) {
    exists j :: 0 <= j < |users| && j != k && users[j].email == email
  }

  /** The fields `select('-_id ' + changes)` keeps: the ones the request changed. */
  datatype AccountChanges = AccountChanges(fullName: Option<string>, email: Option<string>)

  /**
   * `updateAccountDetails`: with neither field a 400 reply; otherwise `$set`
   * of both fields, each the given value or the requester's current one, after
   * the schema setters (`fullName` trimmed, `email` lower-cased and trimmed).
   * An email another user has violates the unique index (500).  The reply
   * holds just the changed fields, or `null` when the account is gone.
   */
  method UpdateAccountDetails(st: Store, me: User, fullName: Option<string>, email: Option<string>)
    returns (o: Outcome<AccountChanges>)
    requires st.Valid()
    modifies st
    ensures st.Valid()
    ensures !Truthy(fullName) && !Truthy(email) ==>
      o == Reply(400, 400, Blank(EmptyObject), "No Changes have been made") && unchanged(st)
    ensures (Truthy(fullName) || Truthy(email)) && IndexOfId(old(st.users), UserId, me.id).None? ==>
      o == Reply(200, 200, Blank(Null), "Account details updated successfully!") && unchanged(st)
    ensures (Truthy(fullName) || Truthy(email)) && IndexOfId(old(st.users), UserId, me.id).Some? ==> (
      var k := IndexOfId(old(st.users), UserId, me.id).value;
      var name := Trim(OrElse(fullName, me.fullName));
      var mail := Normalise(OrElse(email, me.email));
      (EmailTakenByOther(old(st.users), k, mail) ==> o.IsError(500) && unchanged(st))
      && (!EmailTakenByOther(old(st.users), k, mail) ==>
        o == Reply(200, 200, Doc(AccountChanges(if Truthy(fullName) then Some(name) else None,
                                                if Truthy(email) then Some(mail) else None)),
                   "Account details updated successfully!")
        && st.Snapshot() == old(st.Snapshot()).(users := old(st.users)[k := old(st.users)[k].(fullName := name, email := mail)])))
  {
    if !Truthy(fullName) && !Truthy(email) {
      o := Reply(400, 400, Blank(EmptyObject), "No Changes have been made");
      return;
    }
    var name := Trim(OrElse(fullName, me.fullName));
    var mail := Normalise(OrElse(email, me.email));
    match IndexOfId(st.users, UserId, me.id)
    case None =>
      o := Reply(200, 200, Blank(Null), "Account details updated successfully!");
    case Some(k) =>
      if EmailTakenByOther(st.users, k, mail) {
        o := Crash("E11000 duplicate key error collection: users index: email_1");
      } else {
        var updated := st.users[k].(fullName := name, email := mail);
        forall j | 0 <= j < |st.users| && j != k ensures Apart(st.users[j], updated) {
          if j < k {
            assert Apart(st.users[j], st.users[k]);
          } else {
            assert Apart(st.users[k], st.users[j]);
          }
        }
        st.ReplaceUser(k, updated);
        o := Reply(200, 200, Doc(AccountChanges(if Truthy(fullName) then Some(name) else None,
                                                if Truthy(email) then Some(mail) else None)),
                   "Account details updated successfully!");
      }
  }

  /** The four body fields `registerUser` requires, all truthy. */
  predicate AllGiven(fullName: Option<string>, email: Option<string>, username: Option<string>, password: Option<string>) {
    Truthy(fullName) && Truthy(email) && Truthy(username) && Truthy(password)
  }

  /**
   * The checks `registerUser` makes before `User.create`: the four fields are
   * required (404), the trimmed email needs an "@" (400), the email and the
   * lower-cased username must be new once the schema setters have run on the
   * query (409 each), and the avatar file is required (400).
   */
  function RegisterCheck(users: seq<User>, fullName: Option<string>, email: Option<string>, username: Option<string>,
                         password: Option<string>, avatar: VideoController.Upload): (e: Option<ApiError>)
    ensures !AllGiven(fullName, email, username, password) ==> e == Some(Raised(404, "All fields are required"))
    ensures AllGiven(fullName, email, username, password) ==> (
      var name := Normalise(ToLower(username.value));
      var mail := Normalise(email.value);
      (!Contains(Trim(email.value), '@') ==> e == Some(Raised(400, "Invalid email")))
      && ((Contains(Trim(email.value), '@') && EmailTaken(users, mail)) ==>
            e == Some(Raised(409, "Email already registered")))
      && ((Contains(Trim(email.value), '@') && !EmailTaken(users, mail) && UsernameTaken(users, name)) ==>
            e == Some(Raised(409, "Username not available")))
      && ((Contains(Trim(email.value), '@') && !EmailTaken(users, mail) && !UsernameTaken(users, name)
           && !VideoController.Given(avatar)) ==>
            e == Some(Raised(400, "Avatar is required field"))))
    ensures e.None? <==> (AllGiven(fullName, email, username, password) && Contains(Trim(email.value), '@')
      && !EmailTaken(users, Normalise(email.value)) && !UsernameTaken(users, Normalise(ToLower(username.value)))
      && VideoController.Given(avatar))
  {
    if !AllGiven(fullName, email, username, password) then Some(Raised(404, "All fields are required"))
    else if !Contains(Trim(email.value), '@') then Some(Raised(400, "Invalid email"))
    else if EmailTaken(users, Normalise(email.value)) then Some(Raised(409, "Email already registered"))
    else if UsernameTaken(users, Normalise(ToLower(username.value))) then Some(Raised(409, "Username not available"))
    else if !VideoController.Given(avatar) then Some(Raised(400, "Avatar is required field"))
    else None
  }

  /**
   * What `registerUser` passes to `User.create`: the username lower-cased,
   * `String(password)`, the avatar URL (or nothing when the upload failed) and
   * the cover image URL or "".
   */
  function RegisterFields(fullName: Option<string>, email: Option<string>, username: Option<string>,
                          password: Option<string>, avatar: VideoController.Upload, coverImage: VideoController.Upload)
    : (f: UserFields)
    ensures f.username == ToLower(username.GetOr("")) && f.fullName == fullName.GetOr("")
    ensures f.email == email.GetOr("") && f.password == JsString(password)
    ensures f.avatar == VideoController.UrlOf(avatar)
    ensures f.coverImage == (if coverImage.Uploaded? then coverImage.url else "")
  {
    var coverUrl := if VideoController.Given(coverImage) then VideoController.UrlOf(coverImage) else None;
    UserFields(ToLower(username.GetOr("")), fullName.GetOr(""), email.GetOr(""), JsString(password),
               VideoController.UrlOf(avatar), OrElse(coverUrl, ""))
  }

  /**
   * Without a cover image `coverImage` is stored as "", which the schema's
   * `required` refuses, so such a registration can never create a user.
   */
  lemma RegisterNeedsCover(id: Id, fullName: Option<string>, email: Option<string>, username: Option<string>,
                           password: Option<string>, avatar: VideoController.Upload, coverImage: VideoController.Upload)
    requires !coverImage.Uploaded? || coverImage.url == ""
    ensures NewUserDoc(id, RegisterFields(fullName, email, username, password, avatar, coverImage)).None?
  {
  }

  /**
   * `registerUser` up to the hand-over to `loginUser`: a failed check or a
   * validation error of `User.create` (500) changes nothing; otherwise the new
   * user takes the next id and is returned with its position.  Its username and
   * email were checked to be new, so the unique indexes still hold.
   */
  method RegisterUser(st: Store, fullName: Option<string>, email: Option<string>, username: Option<string>,
                      password: Option<string>, avatar: VideoController.Upload, coverImage: VideoController.Upload)
    returns (r: Lookup<User>)
    requires st.Valid()
    modifies st
    ensures st.Valid()
    ensures RegisterCheck(old(st.users), fullName, email, username, password, avatar).Some? ==>
      r == Stop(RegisterCheck(old(st.users), fullName, email, username, password, avatar).value) && unchanged(st)
    ensures RegisterCheck(old(st.users), fullName, email, username, password, avatar).None? ==> (
      var doc := NewUserDoc(old(st.nextId), RegisterFields(fullName, email, username, password, avatar, coverImage));
      (doc.None? ==> r.Stop? && r.error.statusCode == Code(500) && unchanged(st))
      && (doc.Some? ==> (r == Found(|old(st.users)|, doc.value)
          && st.Snapshot() == old(st.Snapshot()).(users := old(st.users) + [doc.value], nextId := old(st.nextId) + 1))))
  {
    var check := RegisterCheck(st.users, fullName, email, username, password, avatar);
    if check.Some? {
      return Stop(check.value);
    }
    var doc := NewUserDoc(st.nextId, RegisterFields(fullName, email, username, password, avatar, coverImage));
    if doc.None? {
      return Stop(Crash<()>("User validation failed").error);
    }
    var u := doc.value;
    assert u.username == Normalise(ToLower(username.value)) && u.email == Normalise(email.value);
    var k := |st.users|;
    st.InsertUser(u);
    r := Found(k, u);
  }

  /** The `channelDetails` facet: the user's public fields, the subscriber count and the viewer flag. */
  datatype ChannelDetails = ChannelDetails(
    id: Id,
    username: string,
    channelName: string,
    avatar: string,
    coverImage: string,
    subscribers: nat,
    subscribedByViewer: bool)

  datatype ChannelView = ChannelView(channelDetails: ChannelDetails, videos: seq<Video>)

  /** `$lookup` of the subscriptions whose `channel` is `c`, then `$size`. */
  function SubscriberCount(subs: seq<Subscription>, c: Id): nat {
    Count(subs, (s: Subscription) => s.channel == c)
  }

  /**
   * The second `$lookup`: subscriptions of `viewer` to `c`, flagged when there is
   * exactly one.  Without a viewer `$$viewer` is null and nothing matches.
   */
  predicate SubscribedByViewer(subs: seq<Subscription>, viewer: Option<Id>, c: Id) {
    viewer.Some? && Count(subs, SubscriptionController.ByChannel(viewer.value, c)) == 1
  }

  function VideoOf(c: Id): Video -> bool {
    (v: Video) => v.ownerId == c
  }

  /**
   * The `videos` facet: every video the channel owns, whatever its publish
   * status, by views descending, then `$skip` and `$limit`, which refuse a
   * negative skip and a limit that is not positive.
   */
  function ChannelVideos(videos: seq<Video>, c: Id, skip: int, limit: int): (r: Option<seq<Video>>)
    ensures r.None? <==> skip < 0 || limit <= 0
    ensures r.Some? ==> |r.value| <= limit
    ensures r.Some? ==> forall v :: v in r.value ==> v in videos && v.ownerId == c
    ensures r.Some? ==> SortedBy(r.value, VideoController.SortKey(VideoController.Views), true)
    ensures r.Some? ==> IsWindow(SortBy(Filter(videos, VideoOf(c)), VideoController.SortKey(VideoController.Views), true),
                                 skip, limit, r.value)
  {
    var key := VideoController.SortKey(VideoController.Views);
    var owned := Filter(videos, VideoOf(c));
    var sorted := SortBy(owned, key, true);
    FilterMembership(videos, VideoOf(c));
    SortByElements(owned, key, true);
    SortBySorted(owned, key, true);
    match AggregateWindow(sorted, skip, limit)
    case None => None
    case Some(window) =>
      WindowOfSorted(sorted, window, skip, key, true);
      Some(window)
  }

  /**
   * `getChannelById`: a token that `jwt.verify` rejects throws (500); a
   * malformed channel id is refused (400).  An unknown channel leaves the
   * `$unwind` nothing, so `channel[0]` is undefined and reading it throws
   * (500): the 404 check after it never fires.  Otherwise the details count
   * the channel's subscribers and flag the viewer's subscription.
   */
  function GetChannelById(db: Db, caller: Caller, channelId: string, page: Option<int>, limit: Option<int>)
    : (o: Outcome<ChannelView>)
    ensures caller.BadToken? ==> o.IsError(500)
    ensures !caller.BadToken? && ParseObjectId(channelId).None? ==> o == Throw(400, "Invalid Channel ID provided")
    ensures o.Replied? <==> (!caller.BadToken? && ParseObjectId(channelId).Some?
      && IndexOfId(db.users, UserId, ParseObjectId(channelId).value).Some?
      && SkipFor(page.GetOr(1), limit.GetOr(24)) >= 0 && limit.GetOr(24) > 0)
    ensures !o.Replied? && !caller.BadToken? && ParseObjectId(channelId).Some? ==> o.IsError(500)
    ensures o.Replied? ==> (o.http == 200 && o.body.statusCode == 200
      && o.body.message == "Channel fetched successfully" && o.body.data.Doc?)
    ensures o.Replied? && o.body.data.Doc? ==> (
      var c := ParseObjectId(channelId).value;
      var details := o.body.data.value.channelDetails;
      details.id == c
      && details.subscribers == SubscriberCount(db.subscriptions, c)
      && (details.subscribedByViewer <==> SubscribedByViewer(db.subscriptions, ViewerId(db.users, caller), c))
      && |o.body.data.value.videos| <= limit.GetOr(24)
      && (forall v :: v in o.body.data.value.videos ==> v in db.videos && v.ownerId == c)
      && SortedBy(o.body.data.value.videos, VideoController.SortKey(VideoController.Views), true)
      && IsWindow(SortBy(Filter(db.videos, VideoOf(c)), VideoController.SortKey(VideoController.Views), true),
                  SkipFor(page.GetOr(1), limit.GetOr(24)), limit.GetOr(24), o.body.data.value.videos))
  {
    if caller.BadToken? then Crash("invalid signature")
    else match ParseObjectId(channelId)
      case None => Throw(400, "Invalid Channel ID provided")
      case Some(c) =>
        match ChannelVideos(db.videos, c, SkipFor(page.GetOr(1), limit.GetOr(24)), limit.GetOr(24))
        case None => Crash("invalid argument to $skip or $limit stage")
        case Some(videos) =>
          match IndexOfId(db.users, UserId, c)
          case None => Crash("Cannot read properties of undefined (reading 'channelDetails')")
          case Some(k) =>
            var u := db.users[k];
            var details := ChannelDetails(u.id, u.username, u.fullName, u.avatar, u.coverImage,
                                          SubscriberCount(db.subscriptions, c),
                                          SubscribedByViewer(db.subscriptions, ViewerId(db.users, caller), c));
            Reply(200, 200, Doc(ChannelView(details, videos)), "Channel fetched successfully")
  }

  /**
   * With the intended subscription lookup, a toggle by the viewer flips the
   * channel page's `subscribedByViewer` and moves its subscriber count by one
   * in the same direction, provided the viewer had at most one subscription.
   */
  lemma ToggleMovesChannelCounts(subs: seq<Subscription>, viewer: Id, c: Id, id: Id)
    requires Count(subs, SubscriptionController.ByChannel(viewer, c)) <= 1
    ensures var after := SubscriptionController.ToggleWith(subs, SubscriptionController.ByChannel(viewer, c), viewer, c, id);
      (SubscribedByViewer(after, Some(viewer), c) <==> !SubscribedByViewer(subs, Some(viewer), c))
      && SubscriberCount(after, c)
         == if SubscribedByViewer(subs, Some(viewer), c) then SubscriberCount(subs, c) - 1 else SubscriberCount(subs, c) + 1
  {
    var key := SubscriptionController.ByChannel(viewer, c);
    var added := Subscription(id, viewer, c);
    ToggleCount(subs, key, added);
    CountZeroIffNone(subs, key);
    match FirstIndex(subs, key)
    case Some(i) =>
      CountRemoveAt(subs, i, (s: Subscription) => s.channel == c);
    case None =>
      CountAppendOne(subs, added, (s: Subscription) => s.channel == c);
  }

  /** A watched video with the `$lookup` of its owner: the owners' ids, full names and avatars. */
  datatype HistoryEntry = HistoryEntry(video: Video, owner: seq<VideoController.ChannelCard>)

  function Card(u: User): VideoController.ChannelCard {
    VideoController.ChannelCard(u.id, u.fullName, u.avatar)
  }

  /** The inner `$lookup`: the cards of the users whose id is `ownerId`. */
  function OwnerCards(users: seq<User>, ownerId: Id): (r: seq<VideoController.ChannelCard>)
    ensures forall card :: card in r <==> exists u :: u in users && u.id == ownerId && card == Card(u)
    ensures (forall i, j :: 0 <= i < j < |users| ==> users[i].id != users[j].id) ==> |r| <= 1
  {
    var owners := Filter(users, WithId(ownerId));
    FilterMembership(users, WithId(ownerId));
    var r := seq(|owners|, k requires 0 <= k < |owners| => Card(owners[k]));
    assert forall card :: card in r <==> exists u :: u in owners && card == Card(u) by {
      forall card ensures card in r <==> exists u :: u in owners && card == Card(u) {
        if card in r {
          var k :| 0 <= k < |r| && r[k] == card;
          assert owners[k] in owners;
        }
        if exists u :: u in owners && card == Card(u) {
          var u :| u in owners && card == Card(u);
          var k :| 0 <= k < |owners| && owners[k] == u;
          assert r[k] == card;
        }
      }
    }
    OneUserWithId(users, ownerId);
    r
  }

  function WithId(id: Id): User -> bool {
    (u: User) => u.id == id
  }

  /** With distinct user ids, at most one user has a given id. */
  lemma OneUserWithId(users: seq<User>, id: Id)
    ensures (forall i, j :: 0 <= i < j < |users| ==> users[i].id != users[j].id) ==> Count(users, WithId(id)) <= 1
  {
    if forall i, j :: 0 <= i < j < |users| ==> users[i].id != users[j].id {
      var owners := Filter(users, WithId(id));
      FilterMembership(users, WithId(id));
      FilterNoDuplicates(users, WithId(id));
      forall a | 0 <= a < |owners| ensures owners[a] == owners[0] {
        assert owners[a] in users && owners[0] in users;
      }
      SameEverywhere(owners);
    }
  }


  /**
   * The outer `$lookup` on the `watchHistory` array: the videos whose id it
   * holds, each with its owner cards; nothing when the requester is gone.
   */
  function History(db: Db, me: Id): (h: seq<HistoryEntry>)
    ensures forall e :: e in h ==> e.owner == OwnerCards(db.users, e.video.ownerId)
    ensures forall v :: (exists e :: e in h && e.video == v) <==>
      (v in db.videos && IndexOfId(db.users, UserId, me).Some?
       && v.id in db.users[IndexOfId(db.users, UserId, me).value].watchHistory)
  {
    match IndexOfId(db.users, UserId, me)
    case None => []
    case Some(k) =>
      var watched := db.users[k].watchHistory;
      var vs := Filter(db.videos, (v: Video) => v.id in watched);
      FilterMembership(db.videos, (v: Video) => v.id in watched);
      var h := seq(|vs|, i requires 0 <= i < |vs| => HistoryEntry(vs[i], OwnerCards(db.users, vs[i].ownerId)));
      assert forall v :: (exists e :: e in h && e.video == v) <==> v in vs by {
        forall v ensures (exists e :: e in h && e.video == v) <==> v in vs {
          if v in vs {
            var i :| 0 <= i < |vs| && vs[i] == v;
            assert h[i] in h && h[i].video == v;
          }
        }
      }
      h
  }

  /**
   * `getWatchHistory`: the requester's watched videos with their owners; an
   * empty history is a 200 reply whose body says 204.
   */
  function GetWatchHistory(db: Db, me: Id): (o: Outcome<seq<HistoryEntry>>)
    ensures History(db, me) == [] ==> o == Reply(200, 204, Blank(EmptyObject), "No videos available in watch history.")
    ensures History(db, me) != [] ==>
      o == Reply(200, 200, Doc(History(db, me)), "Watch history fetched successfully.")
  {
    var h := History(db, me);
    if h == [] then Reply(200, 204, Blank(EmptyObject), "No videos available in watch history.")
    else Reply(200, 200, Doc(h), "Watch history fetched successfully.")
  }

  /** `User.findByIdAndDelete(me)`: the collection without the user with that id, if any. */
  function DropUser(users: seq<User>, me: Id): (r: seq<User>)
    ensures IndexOfId(users, UserId, me).None? ==> r == users
    ensures IndexOfId(users, UserId, me).Some? ==> r == RemoveAt(users, IndexOfId(users, UserId, me).value)
  {
    match IndexOfId(users, UserId, me)
    case None => users
    case Some(k) => RemoveAt(users, k)
  }

  /** The ids of the videos `me` owns: what `Video.find({ ownerId })` returns. */
  function OwnedVideoIds(videos: seq<Video>, me: Id): set<Id> {
    set v | v in videos && v.ownerId == me :: v.id
  }

  /** The ids of the comments on the videos `vids`. */
  function CommentIdsOn(comments: seq<Comment>, vids: set<Id>): set<Id> {
    set c | c in comments && c.videoId in vids :: c.id
  }

  /** `{ video: v }`, the filter of the likes on a video. */
  function LikesOnVideo(v: Id): Like -> bool {
    (l: Like) => l.video == Some(v)
  }

  /** A like on none of the videos `vids` and none of the comments `cids`. */
  function KeepLike(vids: set<Id>, cids: set<Id>): Like -> bool {
    (l: Like) => (l.video.None? || l.video.value !in vids) && (l.comment.None? || l.comment.value !in cids)
  }

  /** A comment on none of the videos `vids`. */
  function KeepComment(vids: set<Id>): Comment -> bool {
    (c: Comment) => c.videoId !in vids
  }

  function LikeSurvives(vids: set<Id>, cids: set<Id>, me: Id): Like -> bool {
    (l: Like) => KeepLike(vids, cids)(l) && l.likedBy != me
  }

  function CommentSurvives(vids: set<Id>, me: Id): Comment -> bool {
    (c: Comment) => KeepComment(vids)(c) && c.ownerId != me
  }

  /** `Like.deleteMany({ likedBy: me })`, negated. */
  function NotLikedBy(me: Id): Like -> bool {
    (l: Like) => l.likedBy != me
  }

  /** `Comment.deleteMany({ ownerId: me })`, negated. */
  function NotWrittenBy(me: Id): Comment -> bool {
    (c: Comment) => c.ownerId != me
  }

  function VideoSurvives(me: Id): Video -> bool {
    (v: Video) => v.ownerId != me
  }

  function PlaylistSurvives(me: Id): Playlist -> bool {
    (p: Playlist) => p.ownerId != me
  }

  /** `{ $or: [{ subscriber: me }, { channel: me }] }`, negated. */
  function SubscriptionSurvives(me: Id): Subscription -> bool {
    (s: Subscription) => s.subscriber != me && s.channel != me
  }

  /**
   * The database after `deleteAccount(me)`, stated collection by collection:
   * the user; the videos they own; the likes on those videos and on the
   * comments on them; those comments; the likes and comments by `me`; the
   * playlists they own; and the subscriptions they are either side of.
   */
  function Cascade(db: Db, me: Id): Db {
    var vids := OwnedVideoIds(db.videos, me);
    var cids := CommentIdsOn(db.comments, vids);
    db.(users := DropUser(db.users, me),
        videos := Filter(db.videos, VideoSurvives(me)),
        comments := Filter(db.comments, CommentSurvives(vids, me)),
        likes := Filter(db.likes, LikeSurvives(vids, cids, me)),
        playlists := Filter(db.playlists, PlaylistSurvives(me)),
        subscriptions := Filter(db.subscriptions, SubscriptionSurvives(me)))
  }

  /** The cascade keeps the database valid. */
  lemma CascadeValid(db: Db, me: Id)
    requires ValidDb(db)
    ensures ValidDb(Cascade(db, me))
  {
    var vids := OwnedVideoIds(db.videos, me);
    var cids := CommentIdsOn(db.comments, vids);
    FilterIdsOk(db.videos, VideoSurvives(me), VideoId, db.nextId);
    FilterIdsOk(db.comments, CommentSurvives(vids, me), CommentId, db.nextId);
    FilterIdsOk(db.likes, LikeSurvives(vids, cids, me), LikeId, db.nextId);
    FilterIdsOk(db.playlists, PlaylistSurvives(me), PlaylistId, db.nextId);
    FilterIdsOk(db.subscriptions, SubscriptionSurvives(me), SubscriptionId, db.nextId);
    match IndexOfId(db.users, UserId, me)
    case None =>
    case Some(k) => RemoveAtUsersOk(db.users, k, db.nextId);
  }

  /** Likes on one more video: deleting them after the earlier deletions. */
  lemma LikeVideoStep(likes: seq<Like>, vids: set<Id>, cids: set<Id>, v: Id)
    ensures Filter(Filter(likes, KeepLike(vids, cids)), Not(LikesOnVideo(v))) == Filter(likes, KeepLike(vids + {v}, cids))
  {
    FilterFilter(likes, KeepLike(vids, cids), Not(LikesOnVideo(v)), KeepLike(vids + {v}, cids));
  }

  /** Likes on one more comment: deleting them after the earlier deletions. */
  lemma LikeCommentStep(likes: seq<Like>, vids: set<Id>, cids: set<Id>, c: Id)
    ensures Filter(Filter(likes, KeepLike(vids, cids)), Not(CommentController.LikesOn(c)))
         == Filter(likes, KeepLike(vids, cids + {c}))
  {
    FilterFilter(likes, KeepLike(vids, cids), Not(CommentController.LikesOn(c)), KeepLike(vids, cids + {c}));
  }

  /** Comments on one more video: deleting them after the earlier deletions. */
  lemma CommentVideoStep(comments: seq<Comment>, vids: set<Id>, v: Id)
    ensures Filter(Filter(comments, KeepComment(vids)), Not(CommentController.OfVideo(v)))
         == Filter(comments, KeepComment(vids + {v}))
  {
    FilterFilter(comments, KeepComment(vids), Not(CommentController.OfVideo(v)), KeepComment(vids + {v}));
  }

  /**
   * The comments found on video `v` once the comments on `vids` are gone
   * supply exactly the comment ids the cascade adds for `v`.
   */
  lemma CommentIdsStep(comments: seq<Comment>, vids: set<Id>, v: Id, found: seq<Comment>)
    requires found == Filter(Filter(comments, KeepComment(vids)), CommentController.OfVideo(v))
    ensures CommentIdsOn(comments, vids) + (set k | 0 <= k < |found| :: found[k].id)
         == CommentIdsOn(comments, vids + {v})
  {
    var remaining := Filter(comments, KeepComment(vids));
    FilterMembership(comments, KeepComment(vids));
    FilterMembership(remaining, CommentController.OfVideo(v));
    var left := CommentIdsOn(comments, vids) + (set k | 0 <= k < |found| :: found[k].id);
    var right := CommentIdsOn(comments, vids + {v});
    forall x | x in left ensures x in right {
      if x !in CommentIdsOn(comments, vids) {
        var k :| 0 <= k < |found| && found[k].id == x;
        assert found[k] in found;
      }
    }
    forall x | x in right ensures x in left {
      var c :| c in comments && c.videoId in vids + {v} && c.id == x;
      if c.videoId !in vids {
        assert c in found;
        var k :| 0 <= k < |found| && found[k] == c;
      }
    }
  }

  /** The videos the handler iterates over have exactly the owned ids. */
  lemma OwnedIdsOfFound(videos: seq<Video>, me: Id, found: seq<Video>)
    requires found == Filter(videos, VideoOf(me))
    ensures (set k | 0 <= k < |found| :: found[k].id) == OwnedVideoIds(videos, me)
  {
    FilterMembership(videos, VideoOf(me));
    forall x | x in OwnedVideoIds(videos, me) ensures x in (set k | 0 <= k < |found| :: found[k].id) {
      var v :| v in videos && v.ownerId == me && v.id == x;
      assert v in found;
      var k :| 0 <= k < |found| && found[k] == v;
    }
  }

  /**
   * The inner loop of `deleteAccount`: `Like.deleteMany({ comment })` for each
   * comment found on the video, which adds those comments to the deleted ones.
   */
  method DeleteLikesOnComments(st: Store, comments: seq<Comment>, ghost likes: seq<Like>,
                               ghost vids: set<Id>, ghost cids: set<Id>)
    requires st.likes == Filter(likes, KeepLike(vids, cids))
    modifies st
    ensures st.likes == Filter(likes, KeepLike(vids, cids + set k | 0 <= k < |comments| :: comments[k].id))
    ensures st.Snapshot() == old(st.Snapshot()).(likes := st.likes)
  {
    ghost var done: set<Id> := {};
    assert cids + done == cids;
    var j := 0;
    while j < |comments|
      invariant 0 <= j <= |comments|
      invariant done == set k | 0 <= k < j :: comments[k].id
      invariant st.likes == Filter(likes, KeepLike(vids, cids + done))
      invariant st.Snapshot() == old(st.Snapshot()).(likes := st.likes)
    {
      LikeCommentStep(likes, vids, cids + done, comments[j].id);
      st.likes := Filter(st.likes, Not(CommentController.LikesOn(comments[j].id)));
      assert (cids + done) + {comments[j].id} == cids + (done + {comments[j].id});
      done := done + {comments[j].id};
      j := j + 1;
    }
  }

  /**
   * One turn of the outer loop of `deleteAccount`, for video `v`: the likes
   * on it, the likes on each of its comments, then its comments.
   */
  method DeleteVideoData(st: Store, v: Id, ghost db: Db, ghost vids: set<Id>)
    requires st.likes == Filter(db.likes, KeepLike(vids, CommentIdsOn(db.comments, vids)))
    requires st.comments == Filter(db.comments, KeepComment(vids))
    modifies st
    ensures st.likes == Filter(db.likes, KeepLike(vids + {v}, CommentIdsOn(db.comments, vids + {v})))
    ensures st.comments == Filter(db.comments, KeepComment(vids + {v}))
    ensures st.Snapshot() == old(st.Snapshot()).(likes := st.likes, comments := st.comments)
  {
    ghost var cids := CommentIdsOn(db.comments, vids);
    LikeVideoStep(db.likes, vids, cids, v);
    st.likes := Filter(st.likes, Not(LikesOnVideo(v)));
    var comments := Filter(st.comments, CommentController.OfVideo(v));
    DeleteLikesOnComments(st, comments, db.likes, vids + {v}, cids);
    CommentVideoStep(db.comments, vids, v);
    st.comments := Filter(st.comments, Not(CommentController.OfVideo(v)));
    CommentIdsStep(db.comments, vids, v, comments);
  }

  /** The outer loop of `deleteAccount`, over the videos the user owns. */
  method DeleteVideosData(st: Store, videos: seq<Video>, ghost db: Db)
    requires st.likes == db.likes && st.comments == db.comments
    modifies st
    ensures var vids := set k | 0 <= k < |videos| :: videos[k].id;
      st.likes == Filter(db.likes, KeepLike(vids, CommentIdsOn(db.comments, vids)))
      && st.comments == Filter(db.comments, KeepComment(vids))
    ensures st.Snapshot() == old(st.Snapshot()).(likes := st.likes, comments := st.comments)
  {
    ghost var vids: set<Id> := {};
    FilterAll(db.likes, KeepLike(vids, CommentIdsOn(db.comments, vids)));
    FilterAll(db.comments, KeepComment(vids));
    var i := 0;
    while i < |videos|
      invariant 0 <= i <= |videos|
      invariant vids == set k | 0 <= k < i :: videos[k].id
      invariant st.likes == Filter(db.likes, KeepLike(vids, CommentIdsOn(db.comments, vids)))
      invariant st.comments == Filter(db.comments, KeepComment(vids))
      invariant st.Snapshot() == old(st.Snapshot()).(likes := st.likes, comments := st.comments)
    {
      DeleteVideoData(st, videos[i].id, db, vids);
      vids := vids + {videos[i].id};
      i := i + 1;
    }
  }

  /**
   * Once the likes and comments on the user's videos are gone, deleting the
   * likes and comments by the user leaves the cascade's likes and comments.
   */
  lemma CascadeStages(db: Db, me: Id, likes: seq<Like>, comments: seq<Comment>)
    requires likes == Filter(db.likes, KeepLike(OwnedVideoIds(db.videos, me),
                                                CommentIdsOn(db.comments, OwnedVideoIds(db.videos, me))))
    requires comments == Filter(db.comments, KeepComment(OwnedVideoIds(db.videos, me)))
    ensures Filter(likes, NotLikedBy(me)) == Cascade(db, me).likes
    ensures Filter(comments, NotWrittenBy(me)) == Cascade(db, me).comments
  {
    var vids := OwnedVideoIds(db.videos, me);
    var cids := CommentIdsOn(db.comments, vids);
    FilterFilter(db.likes, KeepLike(vids, cids), NotLikedBy(me), LikeSurvives(vids, cids, me));
    FilterFilter(db.comments, KeepComment(vids), NotWrittenBy(me), CommentSurvives(vids, me));
  }

  /**
   * `deleteAccount`: deletes the user, then, for each video they own, the
   * likes on it, the likes on each of its comments and its comments, and then
   * the videos, the likes and comments by the user, the playlists they own
   * and the subscriptions they are either side of.  The result is `Cascade`.
   * Blob deletions are no-ops here, and the transaction never aborts.
   */
  method DeleteAccount(st: Store, me: Id) returns (o: Outcome<()>)
    requires st.Valid()
    modifies st
    ensures st.Valid()
    ensures st.Snapshot() == Cascade(old(st.Snapshot()), me)
    ensures o == Reply(200, 200, Blank(EmptyObject), "User and its all related data has been deleted")
  {
    ghost var db := st.Snapshot();
    CascadeValid(db, me);
    var users := DropUser(st.users, me);
    var videos := Filter(st.videos, VideoOf(me));
    DeleteVideosData(st, videos, db);
    OwnedIdsOfFound(db.videos, me, videos);
    CascadeStages(db, me, st.likes, st.comments);
    var after := Db(users,
                    Filter(st.videos, VideoSurvives(me)),
                    Filter(st.comments, NotWrittenBy(me)),
                    Filter(st.likes, NotLikedBy(me)),
                    Filter(st.subscriptions, SubscriptionSurvives(me)),
                    Filter(st.playlists, PlaylistSurvives(me)),
                    st.nextId);
    assert after == Cascade(db, me);
    st.Commit(after);
    o := Reply(200, 200, Blank(EmptyObject), "User and its all related data has been deleted");
  }
}
