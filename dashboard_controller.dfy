/**
 * controllers/dashboard.controller.js: `getChannelStats` and `getUserVideos`,
 * two read-only aggregations over the logged-in user's channel.
 */
module DashboardController {
  import opened Wrappers
  import opened ObjectIds
  import opened Seqs
  import opened Paging
  import opened Sorting
  import opened Envelope
  import opened VideoModel
  import opened Records
  import opened StoreState
  import UserController
  import PlaylistController
  import VideoController

  /** The `$project`ed stats document. */
  datatype ChannelStats = ChannelStats(
    id: Id,
    totalVideos: nat,
    totalPlaylists: nat,
    totalLikes: nat,
    totalComments: nat,
    totalSubscribers: nat)

  /** The video id a like points at (its `video` path). */
  function LikedVideo(l: Like): Option<Id> {
    l.video
  }

  /** The video id a comment is on (its `videoId` path). */
  function CommentedVideo(c: Comment): Option<Id> {
    Some(c.videoId)
  }

  /** `$lookup` with `foreignField` given by `ref`, matching the video `v`. */
  function On<T>(ref: T -> Option<Id>, v: Id): T -> bool {
    (x: T) => ref(x) == Some(v)
  }

  /** Points at one of the videos `ids`. */
  function OnAny<T>(ref: T -> Option<Id>, ids: set<Id>): T -> bool {
    (x: T) => ref(x).Some? && ref(x).value in ids
  }

  /** The `$size` of a per-video `$lookup`: `likesCount` or `commentsCount`. */
  function PerVideo<T(!new)>(s: seq<T>, ref: T -> Option<Id>): Video -> nat {
    (v: Video) => Count(s, On(ref, v.id))
  }

  /** `$sum` over the looked-up videos of a per-video count. */
  function SumOver(videos: seq<Video>, count: Video -> nat): nat {
    if videos == [] then 0 else count(videos[0]) + SumOver(videos[1..], count)
  }

  function IdsOf(videos: seq<Video>): set<Id> {
    set k | 0 <= k < |videos| :: videos[k].id
  }

  /** The stats pipeline for an existing user `me`. */
  function StatsOf(db: Db, me: Id): ChannelStats {
    var owned := Filter(db.videos, UserController.VideoOf(me));
    ChannelStats(me,
                 |owned|,
                 Count(db.playlists, PlaylistController.OwnedBy(me)),
                 SumOver(owned, PerVideo(db.likes, LikedVideo)),
                 SumOver(owned, PerVideo(db.comments, CommentedVideo)),
                 UserController.SubscriberCount(db.subscriptions, me))
  }

  /**
   * `getChannelStats`: the stats of the logged-in user's channel, or 404 when
   * the `$match` on their id finds no user.
   */
  function GetChannelStats(db: Db, me: Id): (o: Outcome<ChannelStats>)
    ensures o.Replied?
    ensures o.http == 200 <==> IndexOfId(db.users, UserId, me).Some?
    ensures IndexOfId(db.users, UserId, me).None? ==>
      o == Reply(404, 404, Blank(Null), "No user found for the given ID")
    ensures o.http == 200 ==> (
      o.body.statusCode == 200 && o.body.message == "Channel Stats has loaded successfully"
      && o.body.data.Doc? && o.body.data.value.id == me
      && o.body.data.value.totalVideos == Count(db.videos, UserController.VideoOf(me))
      && o.body.data.value.totalPlaylists == Count(db.playlists, PlaylistController.OwnedBy(me))
      && o.body.data.value.totalSubscribers == UserController.SubscriberCount(db.subscriptions, me))
  {
    if IndexOfId(db.users, UserId, me).None? then
      Reply(404, 404, Blank(Null), "No user found for the given ID")
    else
      Reply(200, 200, Doc(StatsOf(db, me)), "Channel Stats has loaded successfully")
  }

  /** Splitting a count by two predicates that never hold together. */
  lemma {:induction false} CountDisjoint<T(!new)>(s: seq<T>, p: T -> bool, q: T -> bool, either: T -> bool)
    requires forall x :: either(x) == (p(x) || q(x))
    requires forall x :: !(p(x) && q(x))
    ensures Count(s, either) == Count(s, p) + Count(s, q)
  {
    if s != [] {
      CountDisjoint(s[1..], p, q, either);
    }
  }

  /**
   * With distinct video ids, the sum of the per-video counts is the number of
   * documents pointing at any of the videos: nothing is counted twice.
   */
  lemma {:induction false} SumOfCounts<T(!new)>(videos: seq<Video>, s: seq<T>, ref: T -> Option<Id>)
    requires Ascending(videos, VideoId)
    ensures SumOver(videos, PerVideo(s, ref)) == Count(s, OnAny(ref, IdsOf(videos)))
  {
    if videos == [] {
      FilterNone(s, OnAny(ref, IdsOf(videos)));
    } else {
      var rest := videos[1..];
      SumOfCounts(rest, s, ref);
      assert IdsOf(videos) == {videos[0].id} + IdsOf(rest) by {
        forall x | x in IdsOf(videos) ensures x in {videos[0].id} + IdsOf(rest) {
          var k :| 0 <= k < |videos| && videos[k].id == x;
          if k > 0 {
            assert rest[k - 1] == videos[k];
          }
        }
        forall x | x in IdsOf(rest) ensures x in IdsOf(videos) {
          var k :| 0 <= k < |rest| && rest[k].id == x;
          assert videos[k + 1] == rest[k];
        }
      }
      assert videos[0].id !in IdsOf(rest) by {
        forall k | 0 <= k < |rest| ensures rest[k].id != videos[0].id {
          assert rest[k] == videos[k + 1];
        }
      }
      CountDisjoint(s, On(ref, videos[0].id), OnAny(ref, IdsOf(rest)), OnAny(ref, IdsOf(videos)));
    }
  }

  /**
   * For a valid database, `totalLikes` is the number of likes on the user's
   * videos and `totalComments` the number of comments on them: the per-video
   * sums count every such like or comment exactly once.
   */
  lemma ChannelStatsTotals(db: Db, me: Id)
    requires ValidDb(db)
    requires IndexOfId(db.users, UserId, me).Some?
    ensures var stats := GetChannelStats(db, me).body.data.value;
      var vids := UserController.OwnedVideoIds(db.videos, me);
      stats.totalLikes == Count(db.likes, OnAny(LikedVideo, vids))
      && stats.totalComments == Count(db.comments, OnAny(CommentedVideo, vids))
  {
    var owned := Filter(db.videos, UserController.VideoOf(me));
    FilterIdsOk(db.videos, UserController.VideoOf(me), VideoId, db.nextId);
    UserController.OwnedIdsOfFound(db.videos, me, owned);
    SumOfCounts(owned, db.likes, LikedVideo);
    SumOfCounts(owned, db.comments, CommentedVideo);
  }

  /** An owned video with `likes` and `comments` replaced by their counts. */
  datatype VideoRow = VideoRow(video: Video, likes: nat, comments: nat)

  /** The `sortBy` paths of `getUserVideos`: a video path or one of the added counts. */
  datatype RowField = OfVideo(field: VideoController.SortField) | Likes | Comments

  function RowKey(f: RowField): VideoRow -> int {
    (r: VideoRow) => match f
      case OfVideo(g) => VideoController.SortKey(g)(r.video)
      case Likes => r.likes
      case Comments => r.comments
  }

  function RowOf(db: Db, v: Video): VideoRow {
    VideoRow(v, PerVideo(db.likes, LikedVideo)(v), PerVideo(db.comments, CommentedVideo)(v))
  }

  /** The two `$lookup` + `$addFields` stages over the matched videos. */
  function Rows(db: Db, videos: seq<Video>): (r: seq<VideoRow>)
    ensures |r| == |videos|
    ensures forall k :: 0 <= k < |r| ==> r[k] == RowOf(db, videos[k])
  {
    if videos == [] then [] else [RowOf(db, videos[0])] + Rows(db, videos[1..])
  }

  /** The rows of `getUserVideos` before `$skip` and `$limit`. */
  function SortedRows(db: Db, me: Id, key: VideoRow -> int, descending: bool): seq<VideoRow> {
    SortBy(Rows(db, Filter(db.videos, UserController.VideoOf(me))), key, descending)
  }

  /** Every sorted row is the row of an owned video, and every owned video has one. */
  lemma SortedRowsMembers(db: Db, me: Id, key: VideoRow -> int, descending: bool)
    ensures |SortedRows(db, me, key, descending)| == Count(db.videos, UserController.VideoOf(me))
    ensures forall r :: r in SortedRows(db, me, key, descending) <==>
      (r.video in db.videos && r.video.ownerId == me && r == RowOf(db, r.video))
  {
    var owned := Filter(db.videos, UserController.VideoOf(me));
    var rows := Rows(db, owned);
    FilterMembership(db.videos, UserController.VideoOf(me));
    SortByElements(rows, key, descending);
    forall r ensures r in rows <==> (r.video in db.videos && r.video.ownerId == me && r == RowOf(db, r.video)) {
      if r.video in db.videos && r.video.ownerId == me && r == RowOf(db, r.video) {
        assert r.video in owned;
        var k :| 0 <= k < |owned| && owned[k] == r.video;
        assert rows[k] == r;
      }
    }
  }

  /**
   * The `$skip` and `$limit` stages over the sorted rows: refused when the
   * server rejects an argument, otherwise a window of the user's rows.
   */
  function OwnerRowsPage(db: Db, me: Id, skip: int, limit: int, key: VideoRow -> int, descending: bool)
    : (r: Option<seq<VideoRow>>)
    ensures r.None? <==> skip < 0 || limit <= 0
    ensures r.Some? ==> |r.value| <= limit && SortedBy(r.value, key, descending)
    ensures r.Some? ==> forall row :: row in r.value ==>
      row.video in db.videos && row.video.ownerId == me && row == RowOf(db, row.video)
    ensures r.Some? && skip + limit <= Count(db.videos, UserController.VideoOf(me)) ==> |r.value| == limit
    ensures r.Some? && skip == 0 && Count(db.videos, UserController.VideoOf(me)) <= limit ==>
      forall v :: v in db.videos && v.ownerId == me ==> RowOf(db, v) in r.value
    ensures r.Some? ==> IsWindow(SortedRows(db, me, key, descending), skip, limit, r.value)
  {
    var sorted := SortedRows(db, me, key, descending);
    SortedRowsMembers(db, me, key, descending);
    SortBySorted(Rows(db, Filter(db.videos, UserController.VideoOf(me))), key, descending);
    var page := AggregateWindow(sorted, skip, limit);
    if page.Some? then
      WindowOfSorted(sorted, page.value, skip, key, descending);
      assert skip == 0 && |sorted| <= limit ==> page.value == sorted;
      page
    else
      page
  }

  /**
   * `getUserVideos`: the user's videos with their like and comment counts,
   * sorted by `sortBy` (default `createdAt`; descending when `order` is
   * "desc", the default), then `$skip: (page - 1) * limit` and `$limit: limit`
   * (defaults 1 and 20).  A stage argument the server refuses fails the
   * pipeline (500); an empty page is answered 200 with an empty list.
   */
  function GetUserVideos(db: Db, me: Id, page: Option<int>, limit: Option<int>,
                         sortBy: Option<RowField>, order: Option<string>): (o: Outcome<seq<VideoRow>>)
    ensures var skip := SkipFor(page.GetOr(1), limit.GetOr(20));
      o.Replied? <==> skip >= 0 && limit.GetOr(20) > 0
    ensures !o.Replied? ==> o.IsError(500)
    ensures o.Replied? ==> o.http == 200 && o.body.statusCode == 200 && o.body.data.Doc?
    ensures o.Replied? ==> (o.body.message == "No videos found for this channel" <==> o.body.data.value == [])
    ensures o.Replied? ==> (
      var rows := o.body.data.value;
      |rows| <= limit.GetOr(20)
      && SortedBy(rows, RowKey(sortBy.GetOr(OfVideo(VideoController.CreatedAt))), order.GetOr("desc") == "desc")
      && forall r :: r in rows ==>
           r.video in db.videos && r.video.ownerId == me
           && r.likes == Count(db.likes, On(LikedVideo, r.video.id))
           && r.comments == Count(db.comments, On(CommentedVideo, r.video.id)))
    ensures o.Replied? && SkipFor(page.GetOr(1), limit.GetOr(20)) + limit.GetOr(20)
                          <= Count(db.videos, UserController.VideoOf(me)) ==>
      |o.body.data.value| == limit.GetOr(20)
    ensures o.Replied? && SkipFor(page.GetOr(1), limit.GetOr(20)) == 0
                       && Count(db.videos, UserController.VideoOf(me)) <= limit.GetOr(20) ==>
      forall v :: v in db.videos && v.ownerId == me ==> RowOf(db, v) in o.body.data.value
    ensures o.Replied? ==>
      IsWindow(SortedRows(db, me, RowKey(sortBy.GetOr(OfVideo(VideoController.CreatedAt))), order.GetOr("desc") == "desc"),
               SkipFor(page.GetOr(1), limit.GetOr(20)), limit.GetOr(20), o.body.data.value)
  {
    var key := RowKey(sortBy.GetOr(OfVideo(VideoController.CreatedAt)));
    match OwnerRowsPage(db, me, SkipFor(page.GetOr(1), limit.GetOr(20)), limit.GetOr(20), key, order.GetOr("desc") == "desc")
    case None => Crash("invalid argument to $skip or $limit stage")
    case Some(rows) =>
      if rows == [] then Reply(200, 200, Doc([]), "No videos found for this channel")
      else Reply(200, 200, Doc(rows), "Videos fetched successfully")
  }
}
