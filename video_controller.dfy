/**
 * controllers/video.controller.js: `findOwnerOfVideo`, `uploadVideo`,
 * `updateVideoDetails`, `deleteVideo`, `togglePublishStatus`, `getVideoById`,
 * `getAllVideos` and `playVideo`.
 *
 * A file upload to the media host is an `Upload`: no file in the request, a
 * file whose upload returned nothing, or the URL the host returned.  Deleting
 * a file from the host is not modelled.
 */
module VideoController {
  import opened Wrappers
  import opened ObjectIds
  import opened Seqs
  import opened Text
  import opened Paging
  import opened Sorting
  import opened Envelope
  import opened UserModel
  import opened VideoModel
  import opened Records
  import opened StoreState
  import CommentController

  datatype Upload = NoFile | UploadFailed | Uploaded(url: string)

  /** Whether the request carried the file (`req.files.x[0].path` / `req.file?.path`). */
  predicate Given(u: Upload) {
    !u.NoFile?
  }

  /**
   * What the upload helper returns for a file the request carried: the URL,
   * or nothing when the upload fails.  Without a file the helper does not
   * return at all (see `UploadCheck`).
   */
  function UrlOf(u: Upload): (r: Option<string>)
    ensures r.Some? <==> u.Uploaded?
  {
    if u.Uploaded? then Some(u.url) else None
  }

  /**
   * `findOwnerOfVideo`: an empty id and a malformed id are both 404; a missing
   * video makes `video.ownerId` a property read on `null` (500).
   */
  function FindOwnerOfVideo(videos: seq<Video>, videoId: string): (r: Lookup<Video>)
    ensures videoId == "" ==> r == Stop(Raised(404, "Please provide a Video id "))
    ensures videoId != "" && ParseObjectId(videoId).None? ==> r == Stop(Raised(404, "Invalid Video Id provided"))
    ensures ParseObjectId(videoId).Some? ==> (
      (r.Found? <==> exists k :: 0 <= k < |videos| && videos[k].id == ParseObjectId(videoId).value)
      && (r.Stop? ==> r.error.statusCode == Code(500)))
    ensures r.Found? ==> (r.index < |videos| && r.doc == videos[r.index]
      && r.doc.id == ParseObjectId(videoId).value)
  {
    if videoId == "" then Stop(Raised(404, "Please provide a Video id "))
    else match ParseObjectId(videoId)
      case None => Stop(Raised(404, "Invalid Video Id provided"))
      case Some(v) =>
        match IndexOfId(videos, VideoId, v)
        case Some(k) => Found(k, videos[k])
        case None => Stop(Raised(500, "Cannot read properties of null (reading 'ownerId')"))
  }

  /**
   * The fields `uploadVideo` passes to `Video.create` as written: titles are
   * `String(x).trim()`, the owner's channel name is the requester's full name,
   * and `ownerUsername` is not passed at all.  (`ownerchannelId` is passed too,
   * but the schema has no such path, so it is dropped.)
   */
  function UploadFieldsAsWritten(me: User, title: Option<string>, description: Option<string>,
                                 thumbnail: Upload, videoFile: Upload): (f: VideoFields)
    ensures f.ownerUsername.None? && f.ownerId == Some(me.id)
    ensures f.title == Some(Trim(JsString(title))) && f.description == Some(Trim(JsString(description)))
    ensures f.thumbnail == UrlOf(thumbnail) && f.videoFile == UrlOf(videoFile)
  {
    VideoFields(Some(Trim(JsString(title))), Some(Trim(JsString(description))), UrlOf(thumbnail),
                UrlOf(videoFile), None, Some(me.id), None, Some(me.fullName), Some(me.avatar))
  }

  /** The same fields with the owner's username, which the schema requires. */
  function UploadFields(me: User, title: Option<string>, description: Option<string>,
                        thumbnail: Upload, videoFile: Upload): (f: VideoFields)
    ensures f == UploadFieldsAsWritten(me, title, description, thumbnail, videoFile).(ownerUsername := Some(me.username))
  {
    UploadFieldsAsWritten(me, title, description, thumbnail, videoFile).(ownerUsername := Some(me.username))
  }

  /** As written, no upload can create a video: the required owner username is missing. */
  lemma UploadAsWrittenAlwaysRejected(id: Id, me: User, title: Option<string>, description: Option<string>,
                                      thumbnail: Upload, videoFile: Upload)
    ensures NewVideoDoc(id, UploadFieldsAsWritten(me, title, description, thumbnail, videoFile)).None?
  {
  }

  /**
   * With the username passed, an upload with both files and a non-empty
   * title and description creates a public video with no views, owned by the
   * requester.
   */
  lemma UploadCreatesOwnedVideo(id: Id, me: User, title: string, description: string, thumbnail: string, videoFile: string)
    requires Trim(title) != "" && Trim(description) != "" && thumbnail != "" && videoFile != "" && me.username != ""
    ensures var r := NewVideoDoc(id, UploadFields(me, Some(title), Some(description), Uploaded(thumbnail), Uploaded(videoFile)));
      r.Some? && r.value.id == id && r.value.ownerId == me.id && r.value.ownerUsername == me.username
      && r.value.ownerChannelName == Some(me.fullName) && r.value.title == Trim(title)
      && r.value.views == 0 && r.value.publishStatus == "public"
  {
  }

  /**
   * The checks `uploadVideo` makes before creating: 400 when every field is
   * missing; otherwise a missing file reaches the upload helper with no path,
   * whose `catch` then calls `fs.unlinkSync(undefined)`, which throws a
   * `TypeError` (500); otherwise 400 when both uploads returned nothing.
   */
  function UploadCheck(title: Option<string>, description: Option<string>, thumbnail: Upload, videoFile: Upload)
    : (r: Option<ApiError>)
    ensures var allMissing := !Truthy(title) && !Truthy(description) && !Given(thumbnail) && !Given(videoFile);
      r.Some? <==> allMissing || !Given(thumbnail) || !Given(videoFile)
                   || (!Truthy(UrlOf(thumbnail)) && !Truthy(UrlOf(videoFile)))
    ensures !Truthy(title) && !Truthy(description) && !Given(thumbnail) && !Given(videoFile) ==>
      r == Some(Raised(400, "All fields must be given"))
    ensures (Truthy(title) || Truthy(description) || Given(thumbnail) || Given(videoFile))
            && (!Given(thumbnail) || !Given(videoFile)) ==>
      r.Some? && r.value.statusCode == Code(500)
    ensures Given(thumbnail) && Given(videoFile) && !Truthy(UrlOf(thumbnail)) && !Truthy(UrlOf(videoFile)) ==>
      r == Some(Raised(400, "Video Error :: File upload Failed"))
  {
    if !Truthy(title) && !Truthy(description) && !Given(thumbnail) && !Given(videoFile) then
      Some(Raised(400, "All fields must be given"))
    else if !Given(thumbnail) || !Given(videoFile) then
      Some(NewApiError(Code(500), Some(UnlinkFailure), []))
    else if !Truthy(UrlOf(thumbnail)) && !Truthy(UrlOf(videoFile)) then
      Some(Raised(400, "Video Error :: File upload Failed"))
    else None
  }

  /** The message of the `TypeError` that `fs.unlinkSync(undefined)` throws. */
  const UnlinkFailure := "The \"path\" argument must be of type string or an instance of Buffer or URL. Received undefined"

  /** `uploadVideo` as written: every request fails and nothing is stored. */
  method UploadVideo(st: Store, me: User, title: Option<string>, description: Option<string>,
                     thumbnail: Upload, videoFile: Upload) returns (o: Outcome<Video>)
    requires st.Valid()
    modifies st
    ensures st.Valid() && unchanged(st)
    ensures var check := UploadCheck(title, description, thumbnail, videoFile);
      (check.Some? ==> o == Failed(check.value)) && (check.None? ==> o.IsError(500))
  {
    match UploadCheck(title, description, thumbnail, videoFile)
    case Some(e) =>
      o := Failed(e);
    case None =>
      UploadAsWrittenAlwaysRejected(st.nextId, me, title, description, thumbnail, videoFile);
      o := Crash("Video validation failed: ownerUsername: Path `ownerUsername` is required.");
  }

  /**
   * `uploadVideo` with `ownerUsername: req.user.username` added: the created
   * video is stored and returned (200) unless a required path is empty.
   */
  method UploadVideoWithOwner(st: Store, me: User, title: Option<string>, description: Option<string>,
                              thumbnail: Upload, videoFile: Upload) returns (o: Outcome<Video>)
    requires st.Valid()
    modifies st
    ensures st.Valid()
    ensures var check := UploadCheck(title, description, thumbnail, videoFile);
      check.Some? ==> o == Failed(check.value) && unchanged(st)
    ensures var check := UploadCheck(title, description, thumbnail, videoFile);
      var made := NewVideoDoc(old(st.nextId), UploadFields(me, title, description, thumbnail, videoFile));
      check.None? ==> (
        (made.None? ==> o.IsError(500) && unchanged(st))
        && (made.Some? ==> (o == Reply(200, 200, Doc(made.value), "Video uploaded successfully!")
            && st.Snapshot() == old(st.Snapshot()).(videos := old(st.videos) + [made.value],
                                                    nextId := old(st.nextId) + 1))))
  {
    match UploadCheck(title, description, thumbnail, videoFile)
    case Some(e) =>
      o := Failed(e);
    case None =>
      match NewVideoDoc(st.nextId, UploadFields(me, title, description, thumbnail, videoFile))
      case None =>
        o := Crash("Video validation failed");
      case Some(v) =>
        st.InsertVideo(v);
        o := Reply(200, 200, Doc(v), "Video uploaded successfully!");
  }

  /**
   * The `$set` of `updateVideoDetails`: each of title, description and
   * thumbnail becomes the new value when one is given (truthy) and keeps the
   * old one otherwise; every other path is untouched.
   */
  function UpdatedDetails(v: Video, title: Option<string>, description: Option<string>, thumbnail: Option<string>)
    : (r: Video)
    ensures r.title == (if Truthy(title) then title.value else v.title)
    ensures r.description == (if Truthy(description) then description.value else v.description)
    ensures r.thumbnail == (if Truthy(thumbnail) then thumbnail.value else v.thumbnail)
    ensures r.(title := v.title, description := v.description, thumbnail := v.thumbnail) == v
  {
    v.(title := OrElse(title, v.title), description := OrElse(description, v.description),
       thumbnail := OrElse(thumbnail, v.thumbnail))
  }

  /**
   * `updateVideoDetails`: a non-owner gets 403, a request with nothing to
   * change 400, a thumbnail whose upload returned nothing 400; each of these
   * leaves the store as it was.
   */
  method UpdateVideoDetails(st: Store, me: Id, videoId: string, title: Option<string>,
                            description: Option<string>, thumbnail: Upload) returns (o: Outcome<Video>)
    requires st.Valid()
    modifies st
    ensures st.Valid()
    ensures var r := FindOwnerOfVideo(old(st.videos), videoId);
      r.Stop? ==> o == Failed(r.error) && unchanged(st)
    ensures var r := FindOwnerOfVideo(old(st.videos), videoId);
      r.Found? && r.doc.ownerId != me ==> o == Throw(403, "Unauthorized to update this video") && unchanged(st)
    ensures var r := FindOwnerOfVideo(old(st.videos), videoId);
      r.Found? && r.doc.ownerId == me && !Truthy(title) && !Truthy(description) && !Given(thumbnail) ==>
        o == Throw(400, "No changes provided by user") && unchanged(st)
    ensures var r := FindOwnerOfVideo(old(st.videos), videoId);
      r.Found? && r.doc.ownerId == me && (Truthy(title) || Truthy(description) || Given(thumbnail))
      && Given(thumbnail) && !Truthy(UrlOf(thumbnail)) ==>
        o == Throw(400, "Thumbnail update Error :: File upload Failed") && unchanged(st)
    ensures var r := FindOwnerOfVideo(old(st.videos), videoId);
      (r.Found? && r.doc.ownerId == me && (Truthy(title) || Truthy(description) || Given(thumbnail))
       && (Given(thumbnail) ==> Truthy(UrlOf(thumbnail)))) ==> (
        var updated := UpdatedDetails(r.doc, title, description, UrlOf(thumbnail));
        o == Reply(200, 200, Doc(updated), "Video details updated successfully!")
        && st.Snapshot() == old(st.Snapshot()).(videos := old(st.videos)[r.index := updated]))
  {
    match FindOwnerOfVideo(st.videos, videoId)
    case Stop(e) =>
      o := Failed(e);
    case Found(k, v) =>
      if v.ownerId != me {
        o := Throw(403, "Unauthorized to update this video");
      } else if !Truthy(title) && !Truthy(description) && !Given(thumbnail) {
        o := Throw(400, "No changes provided by user");
      } else if Given(thumbnail) && !Truthy(UrlOf(thumbnail)) {
        o := Throw(400, "Thumbnail update Error :: File upload Failed");
      } else {
        var updated := UpdatedDetails(v, title, description, UrlOf(thumbnail));
        st.ReplaceVideo(k, updated);
        o := Reply(200, 200, Doc(updated), "Video details updated successfully!");
      }
  }

  /** The reply payload of `deleteVideo`: `{ video: "video has been removed" }`. */
  datatype VideoRemoved = VideoRemoved(video: string)

  const Removed := VideoRemoved("video has been removed")

  /**
   * How the delete query reads a bare ObjectId given where a filter object is
   * expected: refused with the given error, merged as its own keys into an
   * empty filter that matches every video, or merged as a key no video has.
   * Which one happens depends on the version of the object mapper.
   */
  datatype BareIdFilter = Refused(reason: string) | MatchesAll | MatchesNone

  /**
   * The videos left by `deleteOne(video._id)` as written, for the video at
   * index `k`: a refused filter removes nothing, one matching every video
   * removes the first stored one, and one matching none removes nothing.
   */
  function AfterBareDelete(videos: seq<Video>, k: nat, reading: BareIdFilter): (r: seq<Video>)
    requires k < |videos|
    ensures reading.MatchesAll? ==> r == RemoveAt(videos, 0)
    ensures !reading.MatchesAll? ==> r == videos
  {
    if reading.MatchesAll? then RemoveAt(videos, 0) else videos
  }

  /**
   * With unique ids, the as-written delete leaves the same videos as removing
   * the one at `k` exactly when the filter matches everything and that video
   * happens to be stored first.
   */
  lemma BareDeleteMissesTheVideo(videos: seq<Video>, k: nat, reading: BareIdFilter)
    requires k < |videos|
    requires forall i, j :: 0 <= i < j < |videos| ==> videos[i].id != videos[j].id
    ensures AfterBareDelete(videos, k, reading) == RemoveAt(videos, k) <==> reading.MatchesAll? && k == 0
  {
    var after := AfterBareDelete(videos, k, reading);
    if !reading.MatchesAll? {
      assert |after| != |RemoveAt(videos, k)|;
    } else if k != 0 {
      assert after[0] == videos[1] && RemoveAt(videos, k)[0] == videos[0];
      assert videos[0].id != videos[1].id;
    }
  }

  /**
   * `deleteVideo` as written: the lookup and the owner check as in
   * `DeleteVideo`, then `deleteOne` is handed the bare ObjectId rather than
   * `{ _id: … }`.  A refused filter answers 500; otherwise the reply is the
   * success message, whatever the delete removed (its result is always truthy).
   */
  method DeleteVideoAsWritten(st: Store, me: Id, videoId: string, reading: BareIdFilter)
    returns (o: Outcome<VideoRemoved>)
    requires st.Valid()
    modifies st
    ensures st.Valid()
    ensures var r := FindOwnerOfVideo(old(st.videos), videoId);
      r.Stop? ==> o == Failed(r.error) && unchanged(st)
    ensures var r := FindOwnerOfVideo(old(st.videos), videoId);
      r.Found? && r.doc.ownerId != me ==> o == Throw(404, "Unauthorised to delete the video") && unchanged(st)
    ensures var r := FindOwnerOfVideo(old(st.videos), videoId);
      r.Found? && r.doc.ownerId == me && reading.Refused? ==> o == Crash(reading.reason) && unchanged(st)
    ensures var r := FindOwnerOfVideo(old(st.videos), videoId);
      r.Found? && r.doc.ownerId == me && !reading.Refused? ==> (
        o == Reply(200, 200, Doc(Removed), "Video Deleted successfully")
        && st.Snapshot() == old(st.Snapshot()).(videos := AfterBareDelete(old(st.videos), r.index, reading)))
  {
    match FindOwnerOfVideo(st.videos, videoId)
    case Stop(e) =>
      o := Failed(e);
    case Found(k, v) =>
      if v.ownerId != me {
        o := Throw(404, "Unauthorised to delete the video");
        return;
      }
      match reading
      case Refused(reason) =>
        o := Crash(reason);
      case MatchesNone =>
        o := Reply(200, 200, Doc(Removed), "Video Deleted successfully");
      case MatchesAll =>
        RemoveAtIdsOk(st.videos, 0, VideoId, st.nextId);
        st.videos := RemoveAt(st.videos, 0);
        o := Reply(200, 200, Doc(Removed), "Video Deleted successfully");
  }

  /**
   * `deleteVideo`, corrected to delete by `{ _id: video._id }` as every other
   * delete does: a non-owner is refused with 404; the owner's request removes
   * exactly that video.  Its likes, comments and playlist entries stay.
   */
  method DeleteVideo(st: Store, me: Id, videoId: string) returns (o: Outcome<VideoRemoved>)
    requires st.Valid()
    modifies st
    ensures st.Valid()
    ensures var r := FindOwnerOfVideo(old(st.videos), videoId);
      r.Stop? ==> o == Failed(r.error) && unchanged(st)
    ensures var r := FindOwnerOfVideo(old(st.videos), videoId);
      r.Found? && r.doc.ownerId != me ==> o == Throw(404, "Unauthorised to delete the video") && unchanged(st)
    ensures var r := FindOwnerOfVideo(old(st.videos), videoId);
      r.Found? && r.doc.ownerId == me ==> (
        o == Reply(200, 200, Doc(Removed), "Video Deleted successfully")
        && st.Snapshot() == old(st.Snapshot()).(videos := RemoveAt(old(st.videos), r.index))
        && forall w :: w in st.videos <==> w in old(st.videos) && w.id != r.doc.id)
  {
    match FindOwnerOfVideo(st.videos, videoId)
    case Stop(e) =>
      o := Failed(e);
    case Found(k, v) =>
      if v.ownerId != me {
        o := Throw(404, "Unauthorised to delete the video");
        return;
      }
      RemoveAtOnlyThatId(st.videos, k, VideoId, st.nextId);
      RemoveAtIdsOk(st.videos, k, VideoId, st.nextId);
      st.videos := RemoveAt(st.videos, k);
      o := Reply(200, 200, Doc(Removed), "Video Deleted successfully");
  }

  /**
   * `togglePublishStatus`.  The new status is compared with the stored one
   * first: an equal one is answered 400 "no changes" whoever asks.  Otherwise
   * a non-owner is refused (404), an empty status 400, and the status is
   * stored lower-cased.
   */
  method TogglePublishStatus(st: Store, me: Id, videoId: string, publishStatus: Option<string>)
    returns (o: Outcome<Video>)
    requires st.Valid()
    modifies st
    ensures st.Valid()
    ensures var r := FindOwnerOfVideo(old(st.videos), videoId);
      r.Stop? ==> o == Failed(r.error) && unchanged(st)
    ensures var r := FindOwnerOfVideo(old(st.videos), videoId);
      r.Found? && publishStatus == Some(r.doc.publishStatus) ==>
        o == Reply(400, 400, Blank(EmptyObject), "No changes provided by user") && unchanged(st)
    ensures var r := FindOwnerOfVideo(old(st.videos), videoId);
      r.Found? && publishStatus != Some(r.doc.publishStatus) && r.doc.ownerId != me ==>
        o == Throw(404, "Unauthorised to Change publish status of the video") && unchanged(st)
    ensures var r := FindOwnerOfVideo(old(st.videos), videoId);
      r.Found? && publishStatus != Some(r.doc.publishStatus) && r.doc.ownerId == me && !Truthy(publishStatus) ==>
        o == Throw(400, "Change the status before submitting") && unchanged(st)
    ensures var r := FindOwnerOfVideo(old(st.videos), videoId);
      r.Found? && publishStatus != Some(r.doc.publishStatus) && r.doc.ownerId == me && Truthy(publishStatus) ==> (
        var toggled := r.doc.(publishStatus := ToLower(publishStatus.value));
        o == Reply(200, 200, Doc(toggled), "Publish Status changed successfully")
        && IsLower(toggled.publishStatus)
        && st.Snapshot() == old(st.Snapshot()).(videos := old(st.videos)[r.index := toggled]))
  {
    match FindOwnerOfVideo(st.videos, videoId)
    case Stop(e) =>
      o := Failed(e);
    case Found(k, v) =>
      if publishStatus == Some(v.publishStatus) {
        o := Reply(400, 400, Blank(EmptyObject), "No changes provided by user");
      } else if v.ownerId != me {
        o := Throw(404, "Unauthorised to Change publish status of the video");
      } else if !Truthy(publishStatus) {
        o := Throw(400, "Change the status before submitting");
      } else {
        var toggled := v.(publishStatus := ToLower(publishStatus.value));
        st.ReplaceVideo(k, toggled);
        o := Reply(200, 200, Doc(toggled), "Publish Status changed successfully");
      }
  }

  /** `$inc: { views: 1 }` on the video at position `k`. */
  function Viewed(v: Video): (r: Video)
    ensures r.views == v.views + 1 && r.(views := v.views) == v
  {
    v.(views := v.views + 1)
  }

  /**
   * `getVideoById`: a malformed id and a missing video are both 404; otherwise
   * the view count goes up by exactly one and the updated video is returned.
   * The publish status is not checked.
   */
  method GetVideoById(st: Store, videoId: string) returns (o: Outcome<Video>)
    requires st.Valid()
    modifies st
    ensures st.Valid()
    ensures ParseObjectId(videoId).None? ==> o == Throw(404, "Invalid Video Id provided") && unchanged(st)
    ensures ParseObjectId(videoId).Some? && IndexOfId(old(st.videos), VideoId, ParseObjectId(videoId).value).None? ==>
      o == Throw(404, "Video with this ID not found") && unchanged(st)
    ensures ParseObjectId(videoId).Some? && IndexOfId(old(st.videos), VideoId, ParseObjectId(videoId).value).Some? ==> (
      var k := IndexOfId(old(st.videos), VideoId, ParseObjectId(videoId).value).value;
      o == Reply(200, 200, Doc(Viewed(old(st.videos)[k])), "Video fetched successfully")
      && st.Snapshot() == old(st.Snapshot()).(videos := old(st.videos)[k := Viewed(old(st.videos)[k])]))
  {
    match ParseObjectId(videoId)
    case None =>
      o := Throw(404, "Invalid Video Id provided");
    case Some(id) =>
      match IndexOfId(st.videos, VideoId, id)
      case None =>
        o := Throw(404, "Video with this ID not found");
      case Some(k) =>
        var viewed := Viewed(st.videos[k]);
        st.ReplaceVideo(k, viewed);
        o := Reply(200, 200, Doc(viewed), "Video fetched successfully");
  }

  /**
   * The sort paths `getAllVideos` and `getUserVideos` are given: `createdAt`
   * (which follows the id), `views`, or a path no video has, which leaves
   * every key equal.
   */
  datatype SortField = CreatedAt | Views | MissingPath

  function SortKey(f: SortField): Video -> int {
    (v: Video) => match f
      case CreatedAt => v.id as int
      case Views => v.views
      case MissingPath => 0
  }

  /** `find({ ownerId, publishStatus: "public" })`. */
  function PublicOf(channel: Id): Video -> bool {
    (v: Video) => v.ownerId == channel && v.publishStatus == "public"
  }

  datatype VideoPage = VideoPage(videos: seq<Video>, totalVideos: nat)

  /**
   * `getAllVideos`: the channel's public videos sorted by `sortBy` (descending
   * when `order` is "desc"), then the page `skip((page - 1) * limit)` /
   * `limit(limit)`, and the count of all the channel's public videos.  An empty
   * channel id is refused (404); a malformed one fails to cast (500), and so
   * does a negative skip.
   */
  function GetAllVideos(videos: seq<Video>, channelId: string, page: Option<int>, limit: Option<int>,
                        sortBy: Option<SortField>, order: Option<string>): (o: Outcome<VideoPage>)
    ensures channelId == "" ==> o == Throw(404, "Invalid Query! Please pass a channelId")
    ensures channelId != "" && ParseObjectId(channelId).None? ==> o.IsError(500)
    ensures ParseObjectId(channelId).Some? && SkipFor(page.GetOr(1), limit.GetOr(10)) < 0 ==> o.IsError(500)
    ensures ParseObjectId(channelId).Some? && SkipFor(page.GetOr(1), limit.GetOr(10)) >= 0 ==> (
      var c := ParseObjectId(channelId).value;
      o.Replied? && o.http == 200 && o.body.data.Doc?
      && o.body.data.value.totalVideos == Count(videos, PublicOf(c))
      && (forall w :: w in o.body.data.value.videos ==> w in videos && w.ownerId == c && w.publishStatus == "public")
      && (limit.GetOr(10) != 0 ==> |o.body.data.value.videos| <= Abs(limit.GetOr(10)))
      && SortedBy(o.body.data.value.videos, SortKey(sortBy.GetOr(CreatedAt)), order.GetOr("desc") == "desc")
      && FindPage(SortBy(Filter(videos, PublicOf(c)), SortKey(sortBy.GetOr(CreatedAt)), order.GetOr("desc") == "desc"),
                  SkipFor(page.GetOr(1), limit.GetOr(10)), limit.GetOr(10), o.body.data.value.videos))
  {
    if channelId == "" then Throw(404, "Invalid Query! Please pass a channelId")
    else match ParseObjectId(channelId)
      case None => Crash("Cast to ObjectId failed for value \"" + channelId + "\" at path \"ownerId\"")
      case Some(c) =>
        match ChannelPage(videos, c, SkipFor(page.GetOr(1), limit.GetOr(10)), limit.GetOr(10),
                          SortKey(sortBy.GetOr(CreatedAt)), order.GetOr("desc") == "desc")
        case None => Crash("BSON field 'skip' value must be >= 0")
        case Some(p) => Reply(200, 200, Doc(p), "Videos fetched successfully")
  }

  /** The query of `getAllVideos` once the channel id has been cast. */
  function ChannelPage(videos: seq<Video>, c: Id, skip: int, limit: int, key: Video -> int, descending: bool)
    : (r: Option<VideoPage>)
    ensures r.None? <==> skip < 0
    ensures r.Some? ==> r.value.totalVideos == Count(videos, PublicOf(c))
    ensures r.Some? ==> forall w :: w in r.value.videos ==> w in videos && w.ownerId == c && w.publishStatus == "public"
    ensures r.Some? && limit != 0 ==> |r.value.videos| <= Abs(limit)
    ensures r.Some? ==> SortedBy(r.value.videos, key, descending)
    ensures r.Some? ==> FindPage(SortBy(Filter(videos, PublicOf(c)), key, descending), skip, limit, r.value.videos)
  {
    var matching := Filter(videos, PublicOf(c));
    var sorted := SortBy(matching, key, descending);
    FilterMembership(videos, PublicOf(c));
    SortByElements(matching, key, descending);
    SortBySorted(matching, key, descending);
    match FindWindow(sorted, skip, limit)
    case None => None
    case Some(window) =>
      WindowOfSorted(sorted, window, skip, key, descending);
      Some(VideoPage(window, |matching|))
  }

  /** `channelDetails` of the played video: the owner's id, full name (as `channelName`) and avatar. */
  datatype ChannelCard = ChannelCard(id: Id, channelName: string, avatar: string)

  datatype VideoDetails = VideoDetails(video: Video, channelDetails: ChannelCard, comments: seq<Comment>)

  /** One of the suggested videos with its owner's name and avatar. */
  datatype SuggestedVideo = SuggestedVideo(video: Video, channelName: string, channelAvatar: string)

  datatype PlayPage = PlayPage(videoDetails: VideoDetails, randomVideos: seq<SuggestedVideo>)

  /** The owner of `v`, when the users collection still has them (`$lookup` then `$unwind`). */
  function OwnerOf(users: seq<User>, v: Video): (r: Option<User>)
    ensures r.Some? ==> r.value in users && r.value.id == v.ownerId
    ensures r.None? ==> forall u :: u in users ==> u.id != v.ownerId
  {
    match IndexOfId(users, UserId, v.ownerId)
    case Some(k) => Some(users[k])
    case None => None
  }

  /**
   * The `videoDetails` facet: the video when it is public and its owner
   * exists, with its comments newest first.
   */
  function Details(db: Db, id: Id): (r: Option<VideoDetails>)
    requires ValidDb(db)
    ensures r.Some? ==> (r.value.video in db.videos && r.value.video.id == id
      && r.value.video.publishStatus == "public"
      && r.value.channelDetails.id == r.value.video.ownerId)
    ensures r.Some? ==> forall c :: c in r.value.comments <==> c in db.comments && c.videoId == id
    ensures r.Some? ==> (multiset(r.value.comments) == multiset(Filter(db.comments, CommentController.OfVideo(id)))
      && |r.value.comments| == Count(db.comments, CommentController.OfVideo(id)))
    ensures r.Some? ==> forall i, j :: 0 <= i < j < |r.value.comments| ==>
      r.value.comments[i].id >= r.value.comments[j].id
    ensures r.Some? ==> (var u := OwnerOf(db.users, r.value.video);
      u.Some? && r.value.channelDetails == ChannelCard(u.value.id, u.value.fullName, u.value.avatar))
    ensures r.None? ==> forall v :: v in db.videos && v.id == id && v.publishStatus == "public" ==>
      OwnerOf(db.users, v).None?
  {
    var k := FirstIndex(db.videos, (v: Video) => v.id == id && v.publishStatus == "public");
    if k.None? then None
    else
      var v := db.videos[k.value];
      match OwnerOf(db.users, v)
      case None =>
        assert forall w :: w in db.videos && w.id == id && w.publishStatus == "public" ==> w == v by {
          IdsDetermineVideo(db.videos, k.value, db.nextId);
        }
        None
      case Some(u) =>
        var on := CommentController.OfVideo(id);
        var comments := SortBy(Filter(db.comments, on), CommentController.CreatedAt, true);
        FilterMembership(db.comments, on);
        SortByElements(Filter(db.comments, on), CommentController.CreatedAt, true);
        SortBySorted(Filter(db.comments, on), CommentController.CreatedAt, true);
        Some(VideoDetails(v, ChannelCard(u.id, u.fullName, u.avatar), comments))
  }

  /** When the video ids are distinct the video with a given id is unique. */
  lemma IdsDetermineVideo(videos: seq<Video>, k: nat, bound: nat)
    requires IdsOk(videos, VideoId, bound) && k < |videos|
    ensures forall w :: w in videos && w.id == videos[k].id ==> w == videos[k]
  {
    forall w | w in videos && w.id == videos[k].id ensures w == videos[k] {
      var j :| 0 <= j < |videos| && videos[j] == w;
      assert j == k;
    }
  }

  /** `s` rotated to start at `seed` modulo its length. */
  function Rotate<T(!new)>(s: seq<T>, seed: nat): (r: seq<T>)
    ensures |r| == |s|
    ensures forall x :: x in r <==> x in s
    ensures NoDuplicates(s) ==> NoDuplicates(r)
  {
    if s == [] then []
    else
      var k := seed % |s|;
      assert s == s[..k] + s[k..];
      var r := s[k..] + s[..k];
      assert forall i :: 0 <= i < |r| ==> r[i] == s[if i < |s| - k then k + i else i - (|s| - k)];
      r
  }

  /** The `$lookup`/`$unwind` of the suggestions: a video whose owner is gone is dropped. */
  function Suggest(users: seq<User>, vs: seq<Video>): (r: seq<SuggestedVideo>)
    ensures |r| <= |vs|
    ensures forall k :: 0 <= k < |r| ==> r[k].video in vs
    ensures |r| == Count(vs, HasOwner(users))
    ensures forall k :: 0 <= k < |r| ==> r[k].video == Filter(vs, HasOwner(users))[k]
    ensures forall k :: 0 <= k < |r| ==> (var u := OwnerOf(users, r[k].video);
      u.Some? && r[k].channelName == u.value.fullName && r[k].channelAvatar == u.value.avatar)
  {
    var kept := Filter(vs, HasOwner(users));
    FilterMembership(vs, HasOwner(users));
    seq(|kept|, k requires 0 <= k < |kept| =>
      var u := OwnerOf(users, kept[k]).value;
      SuggestedVideo(kept[k], u.fullName, u.avatar))
  }

  /** The videos whose owner the users collection still has. */
  function HasOwner(users: seq<User>): Video -> bool {
    v => OwnerOf(users, v).Some?
  }

  /**
   * The `randomVideos` facet: `$sample: { size: 10 }` of the other videos,
   * public or not.  The sample is drawn at random; `seed` stands for that
   * choice, as a rotation of the candidates.
   */
  function RandomVideos(db: Db, id: Id, seed: nat): (r: seq<SuggestedVideo>)
    ensures |r| <= 10
    ensures forall k :: 0 <= k < |r| ==> r[k].video in db.videos && r[k].video.id != id
  {
    var others := Filter(db.videos, OtherThan(id));
    FilterMembership(db.videos, OtherThan(id));
    Suggest(db.users, Window(Rotate(others, seed), 0, 10))
  }

  /** Distinct stored videos are never suggested twice in one sample. */
  lemma RandomVideosDistinct(db: Db, id: Id, seed: nat)
    requires NoDuplicates(db.videos)
    ensures DistinctVideos(RandomVideos(db, id, seed))
  {
    var others := Filter(db.videos, OtherThan(id));
    var sample := Window(Rotate(others, seed), 0, 10);
    FilterNoDuplicates(db.videos, OtherThan(id));
    WindowNoDuplicates(Rotate(others, seed), 10);
    var suggested := Suggest(db.users, sample);
    SuggestNoDuplicates(db.users, sample);
    assert RandomVideos(db, id, seed) == suggested;
  }

  /** The videos other than the one with id `id`. */
  function OtherThan(id: Id): Video -> bool {
    (v: Video) => v.id != id
  }

  lemma WindowNoDuplicates<T(!new)>(s: seq<T>, cap: nat)
    requires NoDuplicates(s)
    ensures NoDuplicates(Window(s, 0, cap))
  {
  }

  /** No video is suggested twice. */
  predicate DistinctVideos(r: seq<SuggestedVideo>) {
    forall i, j :: 0 <= i < j < |r| ==> r[i].video != r[j].video
  }

  /** Suggestions for distinct videos are for distinct videos. */
  lemma SuggestNoDuplicates(users: seq<User>, vs: seq<Video>)
    requires NoDuplicates(vs)
    ensures DistinctVideos(Suggest(users, vs))
  {
    FilterNoDuplicates(vs, HasOwner(users));
  }

  /** `updateOne({ _id }, { $inc: { views: 1 } })`: no change when no video has the id. */
  function ViewById(videos: seq<Video>, id: Id): (r: seq<Video>)
    requires Ascending(videos, VideoId)
    ensures |r| == |videos|
    ensures forall k :: 0 <= k < |videos| ==> r[k] == (if videos[k].id == id then Viewed(videos[k]) else videos[k])
  {
    match IndexOfId(videos, VideoId, id)
    case None => videos
    case Some(k) => videos[k := Viewed(videos[k])]
  }

  /**
   * What `playVideo` answers once the views were counted: 404 when the video
   * is not public (or is missing, or its owner is gone), otherwise the details
   * and the suggestions.
   */
  function PlayOutcome(db: Db, id: Id, seed: nat): (o: Outcome<PlayPage>)
    requires ValidDb(db)
    ensures Details(db, id).None? ==> o == Throw(404, "This video is private and cannot be played")
    ensures Details(db, id).Some? ==> (o.Replied? && o.http == 200 && o.body.data.Doc?
      && o.body.data.value.videoDetails == Details(db, id).value
      && o.body.data.value.randomVideos == RandomVideos(db, id, seed))
  {
    match Details(db, id)
    case None => Throw(404, "This video is private and cannot be played")
    case Some(d) => Reply(200, 200, Doc(PlayPage(d, RandomVideos(db, id, seed))), "Video Page Data has been fetched")
  }

  /**
   * `playVideo`: after the id check the view count goes up, whether or not the
   * video can then be played.
   */
  method PlayVideo(st: Store, videoId: string, seed: nat) returns (o: Outcome<PlayPage>)
    requires st.Valid()
    modifies st
    ensures st.Valid()
    ensures ParseObjectId(videoId).None? ==> o == Throw(404, "Invalid Video Id provided") && unchanged(st)
    ensures ParseObjectId(videoId).Some? ==> (
      var id := ParseObjectId(videoId).value;
      st.Snapshot() == old(st.Snapshot()).(videos := ViewById(old(st.videos), id))
      && o == PlayOutcome(st.Snapshot(), id, seed))
  {
    match ParseObjectId(videoId)
    case None =>
      o := Throw(404, "Invalid Video Id provided");
    case Some(id) =>
      var found := IndexOfId(st.videos, VideoId, id);
      if found.Some? {
        var k := found.value;
        st.ReplaceVideo(k, Viewed(st.videos[k]));
      }
      o := PlayOutcome(st.Snapshot(), id, seed);
  }
}
