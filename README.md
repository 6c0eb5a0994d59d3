# Video platform backend: a Dafny model

This project models the request handlers of a video-sharing backend built on Express and Mongoose. Users register and upload videos. They comment on videos and like videos and comments. They subscribe to channels and collect videos into playlists. The dashboard shows a channel's totals and its videos. The MongoDB collections are modelled as one `Store` object (`StoreState.Store`) with six sequence fields and a counter that hands out fresh ids. Each handler is a method that updates the store in place, or a function over a snapshot (`Db`) when the handler only reads. Every handler's contract fixes three things for each input:
- the reply: the HTTP status plus the `ApiResponse` or `ApiError` body;
- exactly how the store changes;
- the invariant `Valid()`. Ids are unique and below the counter, usernames and emails are unique, and the saved refresh token was issued by the store.

Modules, one per source file:
- `Envelope` models `apiResponse.js` and `apiError.js`. It also defines the `Outcome` type: either a reply, or an error thrown to the error middleware.
- `UserModel` models `user.model.js`: the lowercase/trim setters, the pre-save password hash, and the token claims.
- `VideoModel` models `video.model.js`: required fields and defaults.
- `Records` holds the comment, like, subscription and playlist documents.
- `LikeController`, `SubscriptionController`, `CommentController`, `VideoController`, `PlaylistController`, `UserController` and `DashboardController` model the controllers.
- `ObjectIds`, `Text`, `Paging`, `Sorting` and `Seqs` model the library behaviour the handlers rely on:
  - `ObjectId.isValid`;
  - string setters;
  - `skip`/`limit`;
  - `sort`;
  - filters and `$addToSet`/`$pull`.

## Model

| member | source | states |
|---|---|---|
| `Envelope.NewApiResponse` | Project/src/utils/apiResponse.js:3-10 | status code and data are stored as given; `success` holds exactly when the code is below 400; the message defaults to "Success" |
| `Envelope.NewApiError` | Project/src/utils/apiError.js:2-20 | data is null and `success` is false; the message defaults to "Something went wrong"; `errors` is the given list when non-empty, otherwise the `Error` class |
| `Envelope.Reply` | Project/src/utils/apiResponse.js:5-8 | a reply carries the given HTTP status, body code, data and message, and is successful exactly when the body code is below 400 |
| `Envelope.Raised` | Project/src/utils/apiError.js:9-13 | a thrown `ApiError` keeps its numeric code and message, has null data, is unsuccessful and lists the `Error` class |
| `Envelope.Throw` | Project/src/app.js:37-50 | an error thrown by a handler reaches the error middleware as a failure with that code and message |
| `Envelope.Crash` | Project/src/app.js:37-50 | an error thrown by Mongoose or by JavaScript itself becomes a 500 failure with the thrown error's message |
| `Envelope.ThrowNamed` | Project/src/controllers/playlist.controller.js:38-40 | a thrown error whose `errors` list names the offending path |
| `Envelope.ThrowText` | Project/src/controllers/user.controller.js:194 | an error rethrown with a message string in the status-code position keeps that string as its status (the reply it then gets is under Left out) |
| `ObjectIds.ParseObjectId` | Project/src/controllers/like.controller.js:12 | an id string is accepted exactly when it is 24 hex digits, and the id it denotes is below 16^24 |
| `ObjectIds.ParseIdText` | Project/src/controllers/like.controller.js:12 | every id, printed as 24 hex digits, parses back to itself |
| `Text.Trim` | Project/src/models/user.model.js:10 | the `trim` setter's result is no longer than its input and neither starts nor ends with white space |
| `Text.TrimIsInfix` | Project/src/models/user.model.js:10 | the `trim` setter cuts off only white space: its result is an infix `s[i..j]` of the input with nothing but white space before `i` and from `j` on |
| `Text.TrimIdempotent` | Project/src/models/user.model.js:16 | trimming a trimmed value changes nothing |
| `Text.TrimEmpty` | Project/src/models/user.model.js:13-18 | a value trims to "" exactly when it is all whitespace, which a `required` path refuses |
| `Text.ToLower` | Project/src/models/user.model.js:9 | the `lowercase` setter on ASCII: each letter A-Z becomes its lower-case form, every other character is kept, length kept |
| `Text.Normalise` | Project/src/models/user.model.js:5-12 | the combined username/email setters produce a lower-case value |
| `Text.LowerTrimCommute` | Project/src/models/user.model.js:19-25 | lower-casing and trimming commute, so the order of the two setters does not matter |
| `Text.NormaliseIdempotent` | Project/src/models/user.model.js:19-25 | normalising a stored username or email again changes nothing, so a query filter that runs the setters matches the stored value |
| `Text.OrElse` | Project/src/controllers/user.controller.js:247 | JavaScript `or`: the given value when it is truthy, the fallback otherwise |
| `Paging.FindWindow` | Project/src/controllers/video.controller.js:234-238 | `find().skip().limit()`: refused exactly for a negative skip; otherwise exactly the documents from position skip on, abs(limit) of them (all that follow for limit 0), fewer only when the input runs out, each equal to the input at its position |
| `Paging.AggregateWindow` | Project/src/controllers/user.controller.js:450-451 | the `$skip`/`$limit` stages: refused exactly when skip is negative or limit is not positive; otherwise exactly the `limit` documents from position skip on, fewer only when the input runs out, each equal to the input at its position |
| `Sorting.SortBy` | Project/src/controllers/video.controller.js:235 | `$sort` returns a permutation of its input |
| `Sorting.SortBySorted` | Project/src/controllers/video.controller.js:235 | the sorted result is in ascending or descending key order, as `order` asks |
| `Sorting.SortByElements` | Project/src/controllers/dashboard.controller.js:171 | sorting keeps the length and exactly the same elements |
| `Sorting.WindowOfSorted` | Project/src/controllers/dashboard.controller.js:171-173 | a window taken from a sorted sequence is itself sorted and contains only elements of the sequence |
| `UserModel.PreSave` | Project/src/models/user.model.js:51-57 | the pre-save hook hashes the password only when it was modified, and changes nothing else |
| `UserModel.NewUserDoc` | Project/src/models/user.model.js:4-50 | a user document is created exactly when every required path is non-empty after its setters; it stores the normalised username and email, the trimmed full name and the hashed password, with an empty watch history and no refresh token |
| `UserModel.NewUserDocNormalised` | Project/src/models/user.model.js:5-25 | a created user's username and email are lower-case and trimmed |
| `UserModel.AccessClaimsOf` | Project/src/models/user.model.js:63-74 | the access token carries the user's id, email, username and full name |
| `UserModel.RefreshClaimsOf` | Project/src/models/user.model.js:75-82 | the refresh token carries only the user's id |
| `VideoModel.NewVideoDoc` | Project/src/models/video.model.js:4-51 | a video document is created exactly when title, description, thumbnail, video file, owner id and owner username are all present; it keeps those fields, with views 0 and status "public" by default |
| `Records.NewCommentDoc` | Project/src/models/comment.model.js:3-23 | a comment is created exactly when content and owner username are non-empty, and it keeps the given fields |
| `Records.NewPlaylistDoc` | Project/src/models/playlist.model.js:3-29 | a playlist is created exactly when name and description are non-empty, and it keeps the given fields |
| `StoreState.IndexOfId` | Project/src/controllers/video.controller.js:210-215 | `findById`: the position found holds that id; no position means no document has it |
| `StoreState.IndexOfIdUnique` | Project/src/controllers/video.controller.js:210-215 | in a valid collection the lookup finds the one document with that id |
| `StoreState.ViewerId` | Project/src/controllers/user.controller.js:338-347 | the optional token gives a viewer exactly when it verifies and names an existing user |
| `StoreState.FilterIdsOk` | Project/src/controllers/user.controller.js:564-573 | deleting documents by any filter keeps the ids ascending and below the counter |
| `StoreState.RemoveAtOnlyThatId` | Project/src/controllers/playlist.controller.js:191 | `findByIdAndDelete` removes exactly the document with that id and keeps every other one |
| `StoreState.AppendUserOk` | Project/src/models/user.model.js:8-22 | adding a user whose username and email are new keeps both unique indexes |
| `StoreState.ReplaceUserOk` | Project/src/models/user.model.js:8-22 | replacing a user by one that clashes with no other user keeps the unique indexes |
| `StoreState.RemoveAtUsersOk` | Project/src/controllers/user.controller.js:530 | deleting a user keeps the user collection valid |
| `StoreState.Store.constructor` | Project/src/models/index.js:1-15 | the six collections the handlers share start empty, and valid |
| `StoreState.Store.NewId` | Project/src/controllers/comment.controller.js:52-58 | the `_id` a create assigns is the counter's value, bigger than every stored id, and the store stays valid |
| `StoreState.Store.ReplaceUser` | Project/src/controllers/user.controller.js:143-150 | saving one user changes that user only and keeps the store valid |
| `StoreState.Store.Commit` | Project/src/controllers/user.controller.js:575 | committing a transaction's valid result makes it the store's contents |
| `StoreState.Store.InsertVideo` | Project/src/controllers/video.controller.js:62-71 | `Video.create` appends the video under the next id and changes nothing else |
| `StoreState.Store.InsertUser` | Project/src/controllers/user.controller.js:77-84 | `User.create` of a user with a new username and email appends it under the next id |
| `StoreState.Store.InsertComment` | Project/src/controllers/comment.controller.js:52-58 | `Comment.create` appends the comment under the next id |
| `StoreState.Store.InsertPlaylist` | Project/src/controllers/playlist.controller.js:46-53 | `Playlist.create` appends the playlist under the next id |
| `LikeController.NewLike` | Project/src/models/like.model.js:3-17 | a new like records the liker and exactly one target |
| `LikeController.ToggleLike` | Project/src/controllers/like.controller.js:15-26 | an existing like of that user on that target is removed (one fewer like); otherwise one new like is appended |
| `LikeController.ToggleLikeFlips` | Project/src/controllers/like.controller.js:15-26 | toggling flips whether the user likes the target, and keeps at most one such like |
| `LikeController.ToggleLikeTwice` | Project/src/controllers/like.controller.js:15-26 | toggling twice restores the liked state, and restores the collection when nothing was liked |
| `LikeController.ToggleLikeKeepsOthers` | Project/src/controllers/like.controller.js:15-26 | every like by another user or on another target survives a toggle |
| `LikeController.ToggleOn` | Project/src/controllers/like.controller.js:15-26 | the store's likes become the toggled likes: 200 with the removed message, or 201 with the added message and one id used |
| `LikeController.ToggleLikeOnVideo` | Project/src/controllers/like.controller.js:7-28 | an empty id fails the lookup cast (500); a malformed id gets 400; otherwise the video like is toggled, and the reply is 200 exactly when it was liked before |
| `LikeController.ToggleLikeOnComment` | Project/src/controllers/like.controller.js:30-51 | the same for a comment like |
| `SubscriptionController.ToggleWith` | Project/src/controllers/subscription.controller.js:16-27 | a matching subscription is removed (one fewer); otherwise one new subscription is appended |
| `SubscriptionController.LookupByIdDuplicates` | Project/src/controllers/subscription.controller.js:16 | as written, the lookup on `_id` never finds an existing subscription, so toggling a subscribed channel adds a second copy |
| `SubscriptionController.LookupByIdDuplicatesExample` | Project/src/controllers/subscription.controller.js:16 | one concrete store where toggling leaves two copies of the same subscription |
| `SubscriptionController.ByChannelToggleFlips` | Project/src/controllers/subscription.controller.js:16-27 | with the lookup on subscriber and channel, toggling flips the subscription, keeps at most one, and toggling twice restores it |
| `SubscriptionController.ToggleKeepsOtherSubscriptions` | Project/src/controllers/subscription.controller.js:16-27 | every other subscription survives a toggle |
| `SubscriptionController.ToggleOn` | Project/src/controllers/subscription.controller.js:16-28 | the store's subscriptions become the toggled ones: 200 "Subscription removed", or 201 with the new subscription |
| `SubscriptionController.ToggleSubscription` | Project/src/controllers/subscription.controller.js:7-29 | a missing or malformed channel id gets 400; otherwise the toggle is keyed on `_id` as written |
| `SubscriptionController.ToggleSubscriptionByChannel` | Project/src/controllers/subscription.controller.js:7-29 | the same checks, with the toggle keyed on subscriber and channel; 200 exactly when the user was subscribed |
| `CommentController.FindOwnerOfComment` | Project/src/controllers/comment.controller.js:11-31 | a malformed video id or comment id gets 404; otherwise the comment is found exactly when it exists, else reading a property of null fails (500) |
| `CommentController.AddComment` | Project/src/controllers/comment.controller.js:33-65 | a malformed video id gets 404 and empty content 400; otherwise exactly one comment by the requester on that video is appended (201) |
| `CommentController.EditComment` | Project/src/controllers/comment.controller.js:161-199 | unchanged content gets 400 before the ownership check; a non-owner gets 403; empty content gets 400; otherwise only that comment's content changes |
| `CommentController.DeleteComment` | Project/src/controllers/comment.controller.js:201-223 | only the owner may delete (403 otherwise); the comment and every like on it are removed, and the reply is `{deleted: id}` |
| `CommentController.DeleteCommentCascade` | Project/src/controllers/comment.controller.js:213-214 | after deletion no like on the comment remains, and every other like does |
| `CommentController.Row` | Project/src/controllers/comment.controller.js:100-152 | a comment row keeps the comment's fields, looks up exactly the likes on that comment, has likesCount equal to their number, and has likedByViewer exactly when there is a viewer with exactly one like on it |
| `CommentController.CommentRows` | Project/src/controllers/comment.controller.js:88-98 | one row per comment on the video |
| `CommentController.GetComments` | Project/src/controllers/comment.controller.js:67-159 | a bad token gets 500 and a malformed id 404; otherwise 200 with the `CommentRows` of the video for the caller: one row per comment on it, newest first, each comment's row present |
| `CommentController.CommentRowsAreTheVideos` | Project/src/controllers/comment.controller.js:88-152 | there is one row per comment on the video (as many rows as such comments), newest first, each the row of a comment on the video, every such comment has its row, and each like count is the number of likes looked up |
| `CommentController.ToggleMovesRow` | Project/src/controllers/comment.controller.js:100-133 | toggling a like on a comment flips the viewer's liked flag and moves the like count by one |
| `VideoController.UrlOf` | Project/src/controllers/video.controller.js:55-60 | for a file the request carried, the helper gives a URL exactly when the upload succeeded |
| `VideoController.FindOwnerOfVideo` | Project/src/controllers/video.controller.js:9-27 | a missing or malformed id gets 404; otherwise the video is found exactly when it exists, else 500 |
| `VideoController.UploadFieldsAsWritten` | Project/src/controllers/video.controller.js:62-71 | the document built as written has trimmed title and description and the requester as owner, but no owner username |
| `VideoController.UploadFields` | Project/src/controllers/video.controller.js:62-71 | the corrected document also carries the requester's username |
| `VideoController.UploadAsWrittenAlwaysRejected` | Project/src/controllers/video.controller.js:62-71 | as written, every upload fails schema validation |
| `VideoController.UploadCreatesOwnedVideo` | Project/src/controllers/video.controller.js:62-71 | with the username added, a complete upload creates a public, unviewed video owned by the requester |
| `VideoController.UploadCheck` | Project/src/controllers/video.controller.js:51-60 | no field at all gets 400; otherwise a missing file crashes the upload helper in `unlinkSync(undefined)` (500); otherwise 400 exactly when neither upload produced a URL |
| `VideoController.UploadVideo` | Project/src/controllers/video.controller.js:29-77 | as written: the checks of UploadCheck, then always a 500, with the store unchanged |
| `VideoController.UploadVideoWithOwner` | Project/src/controllers/video.controller.js:29-77 | corrected: the checks of UploadCheck, then a 500 on a validation failure, else the new video is appended and returned |
| `VideoController.UpdatedDetails` | Project/src/controllers/video.controller.js:112-121 | each truthy field replaces the stored one; nothing else changes |
| `VideoController.UpdateVideoDetails` | Project/src/controllers/video.controller.js:79-131 | lookup failures pass through; a non-owner gets 403; no change gets 400; a failed thumbnail upload gets 400; otherwise only that video's details change |
| `VideoController.DeleteVideoAsWritten` | Project/src/controllers/video.controller.js:133-163 | as written, with the bare ObjectId as the `deleteOne` filter: a non-owner gets 404; for the owner, a refused filter answers 500 and removes nothing, and otherwise the reply is 200 `{ video: "video has been removed" }` while the first stored video or none leaves the store |
| `VideoController.BareDeleteMissesTheVideo` | Project/src/controllers/video.controller.js:147 | with unique ids, the as-written delete removes exactly the requested video only when the filter matches every video and that video is stored first |
| `VideoController.DeleteVideo` | Project/src/controllers/video.controller.js:133-163 | corrected to filter by `{ _id }`: only the owner deletes (404 otherwise); exactly the video with that id leaves the store, and the reply data is `{ video: "video has been removed" }` |
| `VideoController.TogglePublishStatus` | Project/src/controllers/video.controller.js:165-197 | the same status gets 400 before the ownership check; a non-owner gets 404; an empty status gets 400; otherwise the lower-cased status is stored |
| `VideoController.Viewed` | Project/src/controllers/video.controller.js:210-215 | `$inc` adds one view and changes nothing else |
| `VideoController.GetVideoById` | Project/src/controllers/video.controller.js:199-221 | a malformed id or an unknown video gets 404; otherwise that video's views go up by one and the updated video is returned |
| `VideoController.ChannelPage` | Project/src/controllers/video.controller.js:234-240 | refused exactly for a negative skip; the total counts the channel's public videos; the page is exactly the skip/limit window of those videos sorted by the key |
| `VideoController.GetAllVideos` | Project/src/controllers/video.controller.js:223-244 | a missing channel id gets 404 and a malformed id or negative skip 500; otherwise 200 with the total and exactly the `(page-1)*limit` window of the channel's public videos sorted as asked |
| `VideoController.OwnerOf` | Project/src/controllers/video.controller.js:272-337 | the owner lookup finds the user with the video's owner id, or nothing when there is none |
| `VideoController.Details` | Project/src/controllers/video.controller.js:272-337 | the details exist only for a public video with an existing owner; they carry that owner's id, name and avatar and list the comments on the video, each exactly as often as it is stored (a permutation of them), newest first |
| `VideoController.IdsDetermineVideo` | Project/src/controllers/video.controller.js:272-275 | in a valid store one video has a given id |
| `VideoController.Rotate` | Project/src/controllers/video.controller.js:346 | the stand-in for `$sample` reorders the videos without losing or adding any |
| `VideoController.Suggest` | Project/src/controllers/video.controller.js:338-380 | the suggestions are exactly the sampled videos whose owner still exists, in sample order, each with its owner's full name and avatar |
| `VideoController.RandomVideos` | Project/src/controllers/video.controller.js:338-380 | at most ten suggestions, all stored videos other than the one being played |
| `VideoController.RandomVideosDistinct` | Project/src/controllers/video.controller.js:338-380 | when the stored videos are distinct, no video is suggested twice |
| `VideoController.SuggestNoDuplicates` | Project/src/controllers/video.controller.js:348-378 | the owner lookup and projection never suggest a sampled video twice |
| `VideoController.ViewById` | Project/src/controllers/video.controller.js:261-266 | the `$inc` on play adds one view to the video with that id and leaves the others alone |
| `VideoController.PlayOutcome` | Project/src/controllers/video.controller.js:387-397 | 404 when the video is not public or has no owner; otherwise its details and the suggestions |
| `VideoController.PlayVideo` | Project/src/controllers/video.controller.js:246-398 | a malformed id gets 404; otherwise the view count goes up first and the reply is computed on the updated store |
| `PlaylistController.ParseAll` | Project/src/controllers/playlist.controller.js:75-77 | a list of ids is accepted exactly when every entry is a valid id, and each one is parsed in place |
| `PlaylistController.FindOwnerOfPlaylist` | Project/src/controllers/playlist.controller.js:8-26 | a missing or malformed id gets 404; otherwise the playlist is found exactly when it exists, else 500 |
| `PlaylistController.CoverOf` | Project/src/controllers/playlist.controller.js:43-44 | the cover is the first listed video's thumbnail, and exists only when that video does |
| `PlaylistController.CreatePlaylistAndAddVideos` | Project/src/controllers/playlist.controller.js:28-59 | a missing name or description gets 400; a name already used gets 409 naming `name`; a missing first video gets 500; otherwise the playlist is appended with the requester as owner |
| `PlaylistController.AddVideosTo` | Project/src/controllers/playlist.controller.js:80-88 | `$addToSet` on the targeted playlists: the old videos stay in front in their order, followed by exactly the given ids each playlist lacked, each once, in the order of their first occurrence; other playlists are untouched |
| `Seqs.AddToSet` | Project/src/controllers/playlist.controller.js:83-84 | `$addToSet` with `$each`: the array is kept as a prefix; every appended value is a given one the array did not hold, and none is appended twice |
| `Seqs.AddToSetOrder` | Project/src/controllers/playlist.controller.js:83-84 | the appended values are the given values not already held, deduplicated, in the order they were given |
| `PlaylistController.AddVideosToSelectedPlaylist` | Project/src/controllers/playlist.controller.js:61-94 | invalid video ids get 404 and invalid playlist ids 500; otherwise the update is applied and its matched and modified counts are reported |
| `PlaylistController.RemoveVideosFromPlaylistAsWritten` | Project/src/controllers/playlist.controller.js:103-119 | as written, with the owner lookup not awaited, every valid request crashes reading `_id` of undefined, and the process exits exactly when the playlist id is missing, malformed or unknown |
| `PlaylistController.RemoveVideosPullEachAsWritten` | Project/src/controllers/playlist.controller.js:111-119 | with the lookup awaited but `$pull` given `$each`, which only `$push` and `$addToSet` accept, the update is refused, so every valid request is answered 500 and nothing is removed |
| `PlaylistController.RemoveVideosFromPlaylist` | Project/src/controllers/playlist.controller.js:96-125 | corrected (lookup awaited, `$pull` with `$in`): lookup failures pass through; otherwise every occurrence of the given ids leaves that playlist, the other entries keep their order, and no other document changes |
| `PlaylistController.AddThenRemoveRestores` | Project/src/controllers/playlist.controller.js:80-119 | adding ids that were not listed and then pulling them restores the playlist |
| `PlaylistController.UpdatePlaylistDetailsAsWritten` | Project/src/controllers/playlist.controller.js:134-136 | as written, with the owner lookup not awaited, every update is refused with 403, and the process exits exactly when the playlist id is missing, malformed or unknown |
| `PlaylistController.Renamed` | Project/src/controllers/playlist.controller.js:142-151 | a given name or description replaces the stored one; nothing else changes |
| `PlaylistController.UpdatePlaylistDetails` | Project/src/controllers/playlist.controller.js:127-158 | corrected: a non-owner gets 403 and no change 400; otherwise only that playlist's details change |
| `PlaylistController.DeletePlaylistByIdAsWritten` | Project/src/controllers/playlist.controller.js:187-189 | as written every delete is refused with 403, and the process exits exactly when the playlist id is missing, malformed or unknown |
| `PlaylistController.DeletePlaylistById` | Project/src/controllers/playlist.controller.js:181-197 | corrected: only the owner deletes; exactly that playlist leaves the store |
| `PlaylistController.Populate` | Project/src/controllers/playlist.controller.js:167-170 | the populated videos are stored videos; their ids are exactly the listed ids that name a stored video, in list order |
| `PlaylistController.TotalViewsAppend` | Project/src/controllers/playlist.controller.js:172 | the view total of two lists is the sum of their totals |
| `PlaylistController.AddedVideoAddsViews` | Project/src/controllers/playlist.controller.js:172 | adding a video to a playlist raises its view total by that video's views |
| `PlaylistController.GetPlaylistById` | Project/src/controllers/playlist.controller.js:160-179 | a malformed or unknown id gets 404; otherwise the playlist, its populated videos and their total views |
| `PlaylistController.OwnerPage` | Project/src/controllers/playlist.controller.js:208-212 | refused exactly for a negative skip; otherwise exactly the skip/limit window of the owner's playlists sorted by the key, in creation order without a sort key |
| `PlaylistController.GetAllPlaylists` | Project/src/controllers/playlist.controller.js:199-220 | a malformed user id or negative skip gets 500; otherwise the `(page-1)*limit` window of that user's playlists sorted as asked, answered with body code 404 exactly when it is empty |
| `UserController.IssueTokensAsWritten` | Project/src/controllers/user.controller.js:10-26 | as written, token issuance always throws (`jwt` is not defined), rethrown with the message in the status position |
| `UserController.IssueTokens` | Project/src/controllers/user.controller.js:10-26 | corrected: both tokens are issued for the stored user and the refresh token is saved; afterwards it is the only one of that user's refresh tokens accepted |
| `UserController.Logout` | Project/src/controllers/user.controller.js:141-161 | the requester's refresh token is unset; afterwards no refresh token of theirs is accepted |
| `UserController.RefreshCheck` | Project/src/controllers/user.controller.js:166-186 | the check passes exactly when a token is presented, verifies, and is the one saved on its user; each failure is rethrown with the refresh failure text as status |
| `UserController.RefreshTheTokens` | Project/src/controllers/user.controller.js:163-196 | on success a new pair is issued and the presented token is no longer accepted; otherwise nothing changes |
| `UserController.ChangeCurrentPassword` | Project/src/controllers/user.controller.js:198-228 | missing fields get 400 and a wrong current password 401; otherwise the new password is hashed and saved, and afterwards exactly that text is accepted |
| `UserController.UpdateAccountDetails` | Project/src/controllers/user.controller.js:235-263 | no field gets 400; an email another user has fails the unique index (500); otherwise both fields are set after their setters and only the changed ones are returned |
| `UserController.RegisterCheck` | Project/src/controllers/user.controller.js:31-58 | passes exactly when all four fields are given, the email has "@", the normalised email and username are new, and an avatar was uploaded; each failure has its own code |
| `UserController.RegisterFields` | Project/src/controllers/user.controller.js:77-84 | the fields handed to `User.create`: lower-cased username, the avatar URL, and "" for a missing cover |
| `UserController.RegisterNeedsCover` | Project/src/controllers/user.controller.js:60-84 | without a cover image the user document fails validation |
| `UserController.RegisterUser` | Project/src/controllers/user.controller.js:28-94 | the checks' errors are returned with nothing stored; a validation failure gives 500; otherwise exactly the new user is appended |
| `UserController.ChannelVideos` | Project/src/controllers/user.controller.js:421-452 | refused exactly for a negative skip or a limit that is not positive; otherwise exactly the skip/limit window of the channel's videos, most viewed first |
| `UserController.GetChannelById` | Project/src/controllers/user.controller.js:337-466 | a bad token gets 500 and a malformed id 400; a 200 reply exactly for an existing channel and a valid page, with the right subscriber count, the viewer's subscribed flag and exactly the requested window of the channel's videos by views |
| `UserController.ToggleMovesChannelCounts` | Project/src/controllers/user.controller.js:361-407 | a subscription toggle flips the viewer's subscribed flag and moves the subscriber count by one |
| `UserController.OwnerCards` | Project/src/controllers/user.controller.js:471-512 | the owner lookup yields exactly the cards of users with that id, and at most one card when user ids are distinct |
| `UserController.OneUserWithId` | Project/src/controllers/user.controller.js:471-512 | when user ids are distinct, at most one user matches the lookup's `_id` |
| `UserController.History` | Project/src/controllers/user.controller.js:471-512 | the history lists exactly the stored videos in the user's watch history, each with its owner |
| `UserController.GetWatchHistory` | Project/src/controllers/user.controller.js:468-520 | an empty history gets HTTP 200 with body code 204; otherwise the history |
| `UserController.DropUser` | Project/src/controllers/user.controller.js:530 | the user with that id is removed, or nothing when there is none |
| `UserController.CascadeValid` | Project/src/controllers/user.controller.js:523-589 | the database after the cascade delete is still valid |
| `UserController.LikeVideoStep` | Project/src/controllers/user.controller.js:547 | deleting the likes on one more video extends the set of covered videos |
| `UserController.LikeCommentStep` | Project/src/controllers/user.controller.js:553-556 | deleting the likes on one more comment extends the set of covered comments |
| `UserController.CommentVideoStep` | Project/src/controllers/user.controller.js:560 | deleting the comments on one more video extends the set of covered videos |
| `UserController.CommentIdsStep` | Project/src/controllers/user.controller.js:550 | the comments found on one more video are exactly the newly covered comment ids |
| `UserController.OwnedIdsOfFound` | Project/src/controllers/user.controller.js:537 | the videos found for the user have exactly the user's video ids |
| `UserController.DeleteLikesOnComments` | Project/src/controllers/user.controller.js:553-556 | the inner loop removes the likes on every comment found, and touches nothing else |
| `UserController.DeleteVideoData` | Project/src/controllers/user.controller.js:546-560 | one pass of the outer loop removes the likes and comments on that video and the likes on those comments |
| `UserController.DeleteVideosData` | Project/src/controllers/user.controller.js:541-561 | after the loop, likes and comments on the user's videos, and likes on those comments, are gone; nothing else is touched |
| `UserController.CascadeStages` | Project/src/controllers/user.controller.js:564-573 | the closing deletes by liker and by comment author complete the cascade |
| `UserController.DeleteAccount` | Project/src/controllers/user.controller.js:523-589 | the store becomes the cascade of the old one: the user, their videos, the comments and likes on them, their own comments and likes, their playlists and every subscription they are either side of are removed; nothing else changes |
| `DashboardController.GetChannelStats` | Project/src/controllers/dashboard.controller.js:5-132 | 200 exactly when the user exists, else 404 with null data; the counts of videos, playlists and subscribers are those of the user |
| `DashboardController.CountDisjoint` | Project/src/controllers/dashboard.controller.js:65-68 | counting by either of two exclusive conditions adds their counts |
| `DashboardController.SumOfCounts` | Project/src/controllers/dashboard.controller.js:42-69 | over videos with distinct ids, the sum of the per-video counts is the number of documents pointing at any of them |
| `DashboardController.ChannelStatsTotals` | Project/src/controllers/dashboard.controller.js:41-97 | `totalLikes` is the number of likes on the user's videos and `totalComments` the number of comments on them, each counted once |
| `DashboardController.Rows` | Project/src/controllers/dashboard.controller.js:148-169 | one row per matched video, with its like and comment counts |
| `DashboardController.SortedRowsMembers` | Project/src/controllers/dashboard.controller.js:146-171 | the sorted rows are exactly the rows of the user's videos, one per video |
| `DashboardController.OwnerRowsPage` | Project/src/controllers/dashboard.controller.js:171-173 | refused exactly for a negative skip or a limit that is not positive; otherwise exactly the skip/limit window of the user's sorted rows, each the row of one of the user's videos |
| `DashboardController.GetUserVideos` | Project/src/controllers/dashboard.controller.js:134-180 | refused (500) exactly for a negative skip or a limit that is not positive; otherwise exactly the `(page-1)*limit` window of the user's videos with their like and comment counts, sorted as asked; "No videos found" exactly for an empty page |

## Left out

- Express routing, `multer` file handling, cookies and the `loginUser`, `getCurrentUser`, `updateAvatar` and `updateCoverImage` handlers are not part of this model. `registerUser` hands over to `loginUser`, so `RegisterUser` ends with the created user.
- `asyncHandler.js` builds the wrapping arrow function but does not return it, so every wrapped handler is `undefined`. Registering `undefined` as a route handler throws when the routes are set up, and no request reaches a handler. The model describes each handler as if the wrapper returned a function that forwards a rejection to `next`.
- `subscription.controller.js` imports its model without the `.js` extension and takes `ApiResponse` from `apiError.js`. `video.controller.js` imports `ApiResponse.js` with a different case from the file's name. `video.controller.js` and `user.controller.js` import `deleteFileFromCloudinary`, which `cloudinary.js` does not export, so module linking fails. The model assumes these modules resolve and that deleting an asset does nothing.
- `Envelope.ThrowText`: the error middleware passes the text status to `res.status`, which throws, so Express answers such an error with its own 500 page rather than the `ApiError` fields. The model keeps the `ApiError` the handler threw.
- The error middleware answers an `ApiError` with `{status, success, message, errors}`. The model keeps the whole `ApiError` value instead of that projection.
- The authentication middleware is the `me` or `Caller` parameter: a verified user id, or a token that fails to verify.
- JWT signing and verification are not modelled: tokens are opaque values numbered by the store counter, and verification is a boolean parameter.
- bcrypt is an injective stand-in hash.
- Cloudinary uploads are the `Upload` value passed in. Deleting a Cloudinary asset does nothing.
- `$sample` is a rotation by a seed parameter. Any fixed order of the same videos satisfies the suggestions' contract.
- `Text.ToLower`: folds ASCII letters only. JavaScript's `toLowerCase`, and so the `lowercase` setter, folds all of Unicode ("É" becomes "é"), so usernames or emails that differ only in non-ASCII case clash in the source but not in the model (RegisterCheck, UpdateAccountDetails).
- Sort keys are the integer paths the handlers are given in practice (`createdAt`, `views`, the added counts, or a path no document has). `sortBy` in the source may name any path, including string paths, and those orders are not modelled.
- Documents with equal sort keys keep their insertion order, as insertion sort leaves them. MongoDB leaves the order of ties unspecified, so the exact windows stated for pages (including OwnerPage's creation order under the default "-createdAt") hold for this choice of tie order.
- `createdAt` and `updatedAt` are not stored. Creation order is id order, so sorting by `createdAt` sorts by id.
- `parseInt` of a missing or non-numeric query is modelled by the `Option<int>` page and limit parameters. NaN is not modelled.
- `select`/`$project` projections are not modelled: handlers return whole documents or rows.
- Error messages of Mongoose and MongoDB failures are abbreviated strings. `Crash` keeps only that the failure is a 500.
- `UserController.DeleteAccount` applies the cascade as one atomic commit. An aborted transaction and the calls the source makes outside the session are not modelled.
- `UserController.DeleteAccount` leaves alone what the source leaves alone: likes on comments the user wrote on other channels' videos.
- `UserController.History` states the membership of the watch history, not its order.
- `UserController.RefreshTheTokens`: `catch` wraps the caught error object as the `ApiError` message. The model keeps the error's message text.
- `UserController.IssueTokensAsWritten`: in the same way its `catch` (user.controller.js:23-25) passes the caught `ReferenceError` or `TypeError` object as the `ApiError` message. The model keeps that error's message text.
- `VideoController.DeleteVideoAsWritten`: how the object mapper reads a bare ObjectId as a filter depends on its version, and the package manifest is not part of this model. The reading is a parameter: refused (500), merged as an empty filter that matches every video, or merged as a key that matches none. Under an empty filter "first" means first in insertion order.
- `ObjectIds.ParseObjectId`: assumes a release of the `bson` library in which `ObjectId.isValid` and `isValidObjectId` accept only 24 hex digits. Older releases also accept any 12-character string. For such a string, `createFromHexString` (user.controller.js:358, video.controller.js:275, comment.controller.js:54 and :91) then throws, so the source answers 500 where the model answers 400.
- `UserModel.PreSave`: the hook's `next()` call without `return` is not modelled. The hash is applied once.
- `Data_modeling_basics` holds schema exercises that no handler uses. It is not part of this model.

## Findings

| source | as written | input that shows it | evidently intended | confidence | as-written member | corrected member |
|---|---|---|---|---|---|---|
| Project/src/controllers/subscription.controller.js:16 | the existing subscription is looked up by `_id: channelId` | user 1 already subscribed to channel 2 (subscription id 3) toggles channel 2: no match on `_id`, so a second subscription is added | look the subscription up by subscriber and channel, so a second toggle unsubscribes | not executed | `SubscriptionController.LookupByIdDuplicatesExample` | `SubscriptionController.ByChannelToggleFlips` |
| Project/src/controllers/playlist.controller.js:103 | `findOwnerOfPlaylist` is called without `await` in remove, update and delete | any valid request: the promise has no `_id` or `ownerId`, so remove crashes (500), and update and delete always answer 403; a missing, malformed or unknown playlist id also leaves the detached promise to reject unhandled, which ends the process | await the lookup and check the owner of the found playlist | not executed | `PlaylistController.RemoveVideosFromPlaylistAsWritten` | `PlaylistController.RemoveVideosFromPlaylist` |
| Project/src/controllers/playlist.controller.js:114-116 | `$pull: { videos: { $each: videoIds } }` | once the lookup is awaited, any existing playlist and a list of valid video ids: `$each` is not an operator `$pull` accepts, so the update is refused and the answer is 500 | `$pull: { videos: { $in: videoIds } }`, removing every listed id | not executed | `PlaylistController.RemoveVideosPullEachAsWritten` | `PlaylistController.RemoveVideosFromPlaylist` |
| Project/src/controllers/video.controller.js:147 | `Video.deleteOne(video._id, …)` passes the bare ObjectId, not `{ _id: video._id }` as every other delete does | the owner of video 2 in a store holding videos 1 and 2 deletes video 2: the filter is refused (500), matches every video so video 1 goes, or matches none and 200 is answered with nothing removed | `deleteOne({ _id: video._id })`, removing exactly that video | not executed | `VideoController.BareDeleteMissesTheVideo` | `VideoController.DeleteVideo` |
| Project/src/controllers/video.controller.js:62-71 | `Video.create` is given no `ownerUsername`, which the schema requires | any complete upload: validation fails, so 500 | store the uploader's username with the video | not executed | `VideoController.UploadAsWrittenAlwaysRejected` | `VideoController.UploadCreatesOwnedVideo` |
| Project/src/models/user.model.js:65 | `jwt.sign` is used but `jwt` is never imported | any existing user: token issuance throws "jwt is not defined" | import `jsonwebtoken` so that tokens are issued and the refresh token saved | not executed | `UserController.IssueTokensAsWritten` | `UserController.IssueTokens` |
