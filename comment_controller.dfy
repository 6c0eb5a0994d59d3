/**
 * controllers/comment.controller.js: `findOwnerOfComment`, `addComment`,
 * `getComments`, `editComment` and `deleteComment`.
 *
 * Request bodies are JSON; a body field is `Some(text)` when it is a string and
 * `None` when it is absent.
 */
module CommentController {
  import opened Wrappers
  import opened ObjectIds
  import opened Seqs
  import opened Text
  import opened Sorting
  import opened Envelope
  import opened UserModel
  import opened Records
  import opened StoreState
  import LikeController

  /** The `$match` of `getComments`: `{ videoId }`. */
  function OfVideo(v: Id): Comment -> bool {
    (c: Comment) => c.videoId == v
  }

  /** The likes whose `comment` path is `c`: the `$lookup` and `deleteMany` filter. */
  function LikesOn(c: Id): Like -> bool {
    (l: Like) => l.comment == Some(c)
  }

  /**
   * `findOwnerOfComment`: both route ids must be well formed (404 otherwise);
   * the video id is only checked, never looked up.  A missing comment makes
   * `comment.ownerId` a property read on `null`, answered with 500.
   */
  function FindOwnerOfComment(comments: seq<Comment>, videoId: string, commentId: string): (r: Lookup<Comment>)
    ensures ParseObjectId(videoId).None? ==> r == Stop(Raised(404, "Invalid Video Id provided"))
    ensures ParseObjectId(videoId).Some? && ParseObjectId(commentId).None? ==>
      r == Stop(Raised(404, "Invalid comment Id provided"))
    ensures ParseObjectId(videoId).Some? && ParseObjectId(commentId).Some? ==> (
      (r.Found? <==> exists k :: 0 <= k < |comments| && comments[k].id == ParseObjectId(commentId).value)
      && (r.Stop? ==> r.error.statusCode == Code(500)))
    ensures r.Found? ==> (r.index < |comments| && r.doc == comments[r.index]
      && r.doc.id == ParseObjectId(commentId).value)
  {
    match (ParseObjectId(videoId), ParseObjectId(commentId))
    case (None, _) => Stop(Raised(404, "Invalid Video Id provided"))
    case (Some(_), None) => Stop(Raised(404, "Invalid comment Id provided"))
    case (Some(_), Some(c)) =>
      match IndexOfId(comments, CommentId, c)
      case Some(k) => Found(k, comments[k])
      case None => Stop(Raised(500, "Cannot read properties of null (reading 'ownerId')"))
  }

  /**
   * `addComment`: a malformed video id gives 404 and empty content 400, with
   * nothing created; otherwise the comment records the video and the
   * requester's id and username (the video need not exist).  A requester with
   * an empty username fails the schema's `required` check (500).
   */
  method AddComment(st: Store, me: User, videoId: string, content: Option<string>) returns (o: Outcome<Comment>)
    requires st.Valid()
    modifies st
    ensures st.Valid()
    ensures ParseObjectId(videoId).None? ==> o == Throw(404, "Invalid Video Id provided") && unchanged(st)
    ensures ParseObjectId(videoId).Some? && !Truthy(content) ==>
      o == Throw(400, "Comment content is required") && unchanged(st)
    ensures ParseObjectId(videoId).Some? && Truthy(content) && me.username == "" ==> o.IsError(500) && unchanged(st)
    ensures ParseObjectId(videoId).Some? && Truthy(content) && me.username != "" ==> (
      var added := Comment(old(st.nextId), content.value, me.id, me.username, ParseObjectId(videoId).value);
      o == Reply(201, 201, Doc(added), "Comment Added Successfully")
      && st.Snapshot() == old(st.Snapshot()).(comments := old(st.comments) + [added], nextId := old(st.nextId) + 1))
  {
    match ParseObjectId(videoId)
    case None =>
      o := Throw(404, "Invalid Video Id provided");
    case Some(v) =>
      if !Truthy(content) {
        o := Throw(400, "Comment content is required");
        return;
      }
      match NewCommentDoc(st.nextId, JsString(content), me.id, me.username, me.avatar, v)
      case None =>
        o := Crash("Comment validation failed: ownerUsername: Path `ownerUsername` is required.");
      case Some(doc) =>
        st.InsertComment(doc);
        o := Reply(201, 201, Doc(doc), "Comment Added Successfully");
  }

  /**
   * `editComment`.  The new content is compared (as `String(content)`, so an
   * absent one reads "undefined") before anything else; equal content is
   * answered 400 "no changes" whoever asks.  Then a non-owner gets 403 and
   * empty content 400; otherwise only the content changes.
   */
  method EditComment(st: Store, me: Id, videoId: string, commentId: string, content: Option<string>)
    returns (o: Outcome<Comment>)
    requires st.Valid()
    modifies st
    ensures st.Valid()
    ensures var r := FindOwnerOfComment(old(st.comments), videoId, commentId);
      r.Stop? ==> o == Failed(r.error) && unchanged(st)
    ensures var r := FindOwnerOfComment(old(st.comments), videoId, commentId);
      r.Found? && JsString(content) == r.doc.content ==>
        o == Reply(400, 400, Blank(EmptyObject), "No changes made to old comment") && unchanged(st)
    ensures var r := FindOwnerOfComment(old(st.comments), videoId, commentId);
      r.Found? && JsString(content) != r.doc.content && r.doc.ownerId != me ==>
        o == Throw(403, "Unauthorized to edit this comment") && unchanged(st)
    ensures var r := FindOwnerOfComment(old(st.comments), videoId, commentId);
      r.Found? && JsString(content) != r.doc.content && r.doc.ownerId == me && !Truthy(content) ==>
        o == Throw(400, "Comment content is required") && unchanged(st)
    ensures var r := FindOwnerOfComment(old(st.comments), videoId, commentId);
      r.Found? && JsString(content) != r.doc.content && r.doc.ownerId == me && Truthy(content) ==> (
        var edited := r.doc.(content := content.value);
        o == Reply(200, 200, Doc(edited), "Comment Updated Successfully")
        && st.Snapshot() == old(st.Snapshot()).(comments := old(st.comments)[r.index := edited]))
  {
    match FindOwnerOfComment(st.comments, videoId, commentId)
    case Stop(e) =>
      o := Failed(e);
    case Found(k, doc) =>
      if JsString(content) == doc.content {
        o := Reply(400, 400, Blank(EmptyObject), "No changes made to old comment");
      } else if doc.ownerId != me {
        o := Throw(403, "Unauthorized to edit this comment");
      } else if !Truthy(content) {
        o := Throw(400, "Comment content is required");
      } else {
        var edited := doc.(content := JsString(content));
        st.ReplaceComment(k, edited);
        o := Reply(200, 200, Doc(edited), "Comment Updated Successfully");
      }
  }

  /** The reply body of `deleteComment`: `{ deleted: comment._id }`. */
  datatype Deleted = Deleted(deleted: Id)

  /**
   * `deleteComment`: a non-owner gets 403 and nothing changes; the owner's
   * request removes the comment and every like on it.
   */
  method DeleteComment(st: Store, me: Id, videoId: string, commentId: string) returns (o: Outcome<Deleted>)
    requires st.Valid()
    modifies st
    ensures st.Valid()
    ensures var r := FindOwnerOfComment(old(st.comments), videoId, commentId);
      r.Stop? ==> o == Failed(r.error) && unchanged(st)
    ensures var r := FindOwnerOfComment(old(st.comments), videoId, commentId);
      r.Found? && r.doc.ownerId != me ==> o == Throw(403, "Unauthorized to delete this comment") && unchanged(st)
    ensures var r := FindOwnerOfComment(old(st.comments), videoId, commentId);
      r.Found? && r.doc.ownerId == me ==> (
        o == Reply(200, 200, Doc(Deleted(r.doc.id)), "Comment Deleted Successfully")
        && st.Snapshot() == old(st.Snapshot()).(
             comments := RemoveAt(old(st.comments), r.index),
             likes := Filter(old(st.likes), Not(LikesOn(r.doc.id)))))
  {
    match FindOwnerOfComment(st.comments, videoId, commentId)
    case Stop(e) =>
      o := Failed(e);
    case Found(k, doc) =>
      if doc.ownerId != me {
        o := Throw(403, "Unauthorized to delete this comment");
        return;
      }
      RemoveAtIdsOk(st.comments, k, CommentId, st.nextId);
      FilterIdsOk(st.likes, Not(LikesOn(doc.id)), LikeId, st.nextId);
      st.comments := RemoveAt(st.comments, k);
      st.likes := Filter(st.likes, Not(LikesOn(doc.id)));
      o := Reply(200, 200, Doc(Deleted(doc.id)), "Comment Deleted Successfully");
  }

  /**
   * Deleting a comment's likes removes exactly the likes on it: every other like
   * is kept, and none on the comment remains.
   */
  lemma DeleteCommentCascade(likes: seq<Like>, c: Id)
    ensures forall l :: l in Filter(likes, Not(LikesOn(c))) <==> l in likes && l.comment != Some(c)
    ensures Count(Filter(likes, Not(LikesOn(c))), LikesOn(c)) == 0
  {
    FilterMembership(likes, Not(LikesOn(c)));
    CountZeroIffNone(Filter(likes, Not(LikesOn(c))), LikesOn(c));
  }

  /** One element of `getComments`' result, after its `$project`. */
  datatype CommentRow = CommentRow(
    id: Id,
    content: string,
    ownerId: Id,
    ownerUsername: string,
    likesCount: nat,
    likesOnComment: seq<Like>,
    likedByViewer: bool)

  /** `createdAt`, which grows with the id. */
  function CreatedAt(c: Comment): int {
    c.id
  }

  /**
   * The row for comment `c`: the likes on it and their number, and whether the
   * viewer's like lookup found exactly one.  Without a viewer the lookup
   * compares `likedBy` with null and finds none.
   */
  function Row(c: Comment, likes: seq<Like>, viewer: Option<Id>): (row: CommentRow)
    ensures row.id == c.id && row.content == c.content
    ensures row.ownerId == c.ownerId && row.ownerUsername == c.ownerUsername
    ensures forall l :: l in row.likesOnComment <==> l in likes && l.comment == Some(c.id)
    ensures row.likesCount == |row.likesOnComment|
    ensures row.likedByViewer <==>
      viewer.Some? && Count(likes, LikeController.LikeBy(viewer.value, LikeController.OnComment(c.id))) == 1
  {
    FilterMembership(likes, LikesOn(c.id));
    var viewerLikes := match viewer
      case Some(u) => Count(likes, LikeController.LikeBy(u, LikeController.OnComment(c.id)))
      case None => 0;
    CommentRow(c.id, c.content, c.ownerId, c.ownerUsername, Count(likes, LikesOn(c.id)),
               Filter(likes, LikesOn(c.id)), viewerLikes == 1)
  }

  /** The comments on video `v`, newest first, each with its likes. */
  function CommentRows(comments: seq<Comment>, likes: seq<Like>, viewer: Option<Id>, v: Id): (rows: seq<CommentRow>)
    ensures |rows| == Count(comments, OfVideo(v))
  {
    var cs := SortBy(Filter(comments, OfVideo(v)), CreatedAt, true);
    assert |cs| == |Filter(comments, OfVideo(v))| by {
      assert |multiset(cs)| == |multiset(Filter(comments, OfVideo(v)))|;
    }
    seq(|cs|, k requires 0 <= k < |cs| => Row(cs[k], likes, viewer))
  }

  /**
   * `getComments`: the optional access token is verified first (a bad one
   * throws, 500), then a malformed video id gives 404.  Otherwise the rows
   * are those of `CommentRows` for the caller: the video's comments, newest
   * first, each with its likes.
   */
  function GetComments(db: Db, caller: Caller, videoId: string): (o: Outcome<seq<CommentRow>>)
    ensures caller.BadToken? ==> o.IsError(500)
    ensures !caller.BadToken? && ParseObjectId(videoId).None? ==> o == Throw(404, "Invalid Video Id provided")
    ensures !caller.BadToken? && ParseObjectId(videoId).Some? ==> (
      o.Replied? && o.http == 200 && o.body.data.Doc?
      && |o.body.data.value| == Count(db.comments, OfVideo(ParseObjectId(videoId).value))
      && o.body.data.value == CommentRows(db.comments, db.likes, ViewerId(db.users, caller), ParseObjectId(videoId).value)
      && (forall i, j :: 0 <= i < j < |o.body.data.value| ==> o.body.data.value[i].id >= o.body.data.value[j].id)
      && (forall c :: c in db.comments && c.videoId == ParseObjectId(videoId).value ==>
            Row(c, db.likes, ViewerId(db.users, caller)) in o.body.data.value))
  {
    if caller.BadToken? then Crash("invalid signature")
    else match ParseObjectId(videoId)
      case None => Throw(404, "Invalid Video Id provided")
      case Some(v) =>
        CommentRowsAreTheVideos(db.comments, db.likes, ViewerId(db.users, caller), v);
        Reply(200, 200, Doc(CommentRows(db.comments, db.likes, ViewerId(db.users, caller), v)),
              "Comments Fetched Successfully")
  }

  /**
   * The rows are exactly the comments on the video, newest first, and each
   * row's `likesCount` is the number of likes on its comment.
   */
  lemma CommentRowsAreTheVideos(comments: seq<Comment>, likes: seq<Like>, viewer: Option<Id>, v: Id)
    ensures var rows := CommentRows(comments, likes, viewer, v);
      |rows| == Count(comments, OfVideo(v))
      && (forall i, j :: 0 <= i < j < |rows| ==> rows[i].id >= rows[j].id)
      && (forall k :: 0 <= k < |rows| ==> exists c :: c in comments && c.videoId == v && rows[k] == Row(c, likes, viewer))
      && (forall c :: c in comments && c.videoId == v ==> Row(c, likes, viewer) in rows)
      && (forall k :: 0 <= k < |rows| ==> rows[k].likesCount == |rows[k].likesOnComment|)
  {
    var on := Filter(comments, OfVideo(v));
    var cs := SortBy(on, CreatedAt, true);
    var rows := CommentRows(comments, likes, viewer, v);
    SortBySorted(on, CreatedAt, true);
    FilterMembership(comments, OfVideo(v));
    assert |cs| == |rows|;
    forall k | 0 <= k < |rows|
      ensures exists c :: c in comments && c.videoId == v && rows[k] == Row(c, likes, viewer)
    {
      assert cs[k] in multiset(on);
    }
    forall c | c in comments && c.videoId == v ensures Row(c, likes, viewer) in rows {
      assert c in multiset(cs);
      var k :| 0 <= k < |cs| && cs[k] == c;
      assert rows[k] == Row(c, likes, viewer);
    }
    forall i, j | 0 <= i < j < |rows| ensures rows[i].id >= rows[j].id {
      assert InOrder(CreatedAt, true, cs[i], cs[j]);
    }
  }

  /**
   * The view and the like toggle agree: after the viewer toggles a like on a
   * comment (with at most one such like before), `likedByViewer` flips and
   * `likesCount` moves by one in the same direction.
   */
  lemma ToggleMovesRow(c: Comment, likes: seq<Like>, u: Id, id: Id)
    requires Count(likes, LikeController.LikeBy(u, LikeController.OnComment(c.id))) <= 1
    ensures var before := Row(c, likes, Some(u));
      var after := Row(c, LikeController.ToggleLike(likes, u, LikeController.OnComment(c.id), id), Some(u));
      (after.likedByViewer <==> !before.likedByViewer)
      && after.likesCount == if before.likedByViewer then before.likesCount - 1 else before.likesCount + 1
  {
    var t := LikeController.OnComment(c.id);
    var p := LikeController.LikeBy(u, t);
    LikeController.ToggleLikeFlips(likes, u, t, id);
    LikeController.ToggleLikeFlips(likes, u, t, id);
    CountZeroIffNone(likes, p);
    match FirstIndex(likes, p)
    case Some(i) =>
      CountRemoveAt(likes, i, LikesOn(c.id));
    case None =>
      CountAppendOne(likes, LikeController.NewLike(id, u, t), LikesOn(c.id));
  }
}
