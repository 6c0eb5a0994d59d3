/**
 * controllers/like.controller.js: `toggleLikeOnVideo` and `toggleLikeOnComment`,
 * a check-then-act on the likes collection keyed on (target, likedBy).
 */
module LikeController {
  import opened Wrappers
  import opened ObjectIds
  import opened Seqs
  import opened Envelope
  import opened Records
  import opened StoreState

  /** What a like points at: the `video` path or the `comment` path. */
  datatype Target = OnVideo(video: Id) | OnComment(comment: Id)

  predicate Points(l: Like, t: Target) {
    match t
    case OnVideo(v) => l.video == Some(v)
    case OnComment(c) => l.comment == Some(c)
  }

  /** The `findOne` filter: `{ video: id, likedBy: user }` or `{ comment: id, likedBy: user }`. */
  function LikeBy(user: Id, t: Target): Like -> bool {
    (l: Like) => l.likedBy == user && Points(l, t)
  }

  /** The document `Like.create` stores for the target; the other path stays unset. */
  function NewLike(id: Id, user: Id, t: Target): (l: Like)
    ensures l.id == id && LikeBy(user, t)(l)
    ensures t.OnVideo? ==> l.comment == None
    ensures t.OnComment? ==> l.video == None
  {
    match t
    case OnVideo(v) => Like(id, user, Some(v), None)
    case OnComment(c) => Like(id, user, None, Some(c))
  }

  /** Whether `user` has liked the target. */
  predicate Liked(likes: seq<Like>, user: Id, t: Target) {
    Count(likes, LikeBy(user, t)) > 0
  }

  /** The likes collection after one toggle; `id` is the id a created like would take. */
  function ToggleLike(likes: seq<Like>, user: Id, t: Target, id: Id): (r: seq<Like>)
    ensures Liked(likes, user, t) ==> |r| == |likes| - 1
    ensures !Liked(likes, user, t) ==> r == likes + [NewLike(id, user, t)]
  {
    CountZeroIffNone(likes, LikeBy(user, t));
    Toggle(likes, LikeBy(user, t), NewLike(id, user, t))
  }

  /**
   * A toggle flips whether the user likes the target, and keeps "at most one
   * like per (user, target)" when it held before.
   */
  lemma ToggleLikeFlips(likes: seq<Like>, user: Id, t: Target, id: Id)
    requires Count(likes, LikeBy(user, t)) <= 1
    ensures Liked(ToggleLike(likes, user, t, id), user, t) <==> !Liked(likes, user, t)
    ensures Count(ToggleLike(likes, user, t, id), LikeBy(user, t)) <= 1
  {
    ToggleCount(likes, LikeBy(user, t), NewLike(id, user, t));
  }

  /**
   * Toggling the same (user, target) twice restores whether the like exists;
   * starting without one it restores the whole collection.
   */
  lemma ToggleLikeTwice(likes: seq<Like>, user: Id, t: Target, id1: Id, id2: Id)
    requires Count(likes, LikeBy(user, t)) <= 1
    ensures Liked(ToggleLike(ToggleLike(likes, user, t, id1), user, t, id2), user, t) == Liked(likes, user, t)
    ensures !Liked(likes, user, t) ==> ToggleLike(ToggleLike(likes, user, t, id1), user, t, id2) == likes
  {
    ToggleTwice(likes, LikeBy(user, t), NewLike(id1, user, t), NewLike(id2, user, t));
  }

  /** A toggle leaves every like of another (user, target) pair in place and in order. */
  lemma ToggleLikeKeepsOthers(likes: seq<Like>, user: Id, t: Target, id: Id)
    ensures Filter(ToggleLike(likes, user, t, id), Not(LikeBy(user, t))) == Filter(likes, Not(LikeBy(user, t)))
  {
    ToggleKeepsOthers(likes, LikeBy(user, t), NewLike(id, user, t));
  }

  /** The shared body of the two handlers once the id has been accepted. */
  method ToggleOn(st: Store, me: Id, t: Target, removed: string, added: string) returns (o: Outcome<()>)
    requires st.Valid()
    modifies st
    ensures st.Valid()
    ensures st.likes == ToggleLike(old(st.likes), me, t, old(st.nextId))
    ensures Liked(old(st.likes), me, t) ==> (o == Reply(200, 200, Blank(EmptyObject), removed)
      && st.Snapshot() == old(st.Snapshot()).(likes := st.likes))
    ensures !Liked(old(st.likes), me, t) ==> (o == Reply(201, 201, Blank(EmptyObject), added)
      && st.Snapshot() == old(st.Snapshot()).(likes := st.likes, nextId := old(st.nextId) + 1))
  {
    CountZeroIffNone(st.likes, LikeBy(me, t));
    match FirstIndex(st.likes, LikeBy(me, t))
    case Some(i) =>
      RemoveAtIdsOk(st.likes, i, LikeId, st.nextId);
      st.likes := RemoveAt(st.likes, i);
      o := Reply(200, 200, Blank(EmptyObject), removed);
    case None =>
      var id := st.NewId();
      AppendIdsOk(st.likes, NewLike(id, me, t), LikeId, id);
      st.likes := st.likes + [NewLike(id, me, t)];
      o := Reply(201, 201, Blank(EmptyObject), added);
  }

  /**
   * `toggleLikeOnVideo`: a malformed id is refused with 400; an empty one skips
   * that check and fails to cast in the query (500).  The video need not exist.
   */
  method ToggleLikeOnVideo(st: Store, me: Id, videoId: string) returns (o: Outcome<()>)
    requires st.Valid()
    modifies st
    ensures st.Valid()
    ensures videoId == "" ==> o.IsError(500) && unchanged(st)
    ensures videoId != "" && ParseObjectId(videoId).None? ==>
      o == Throw(400, "Invalid videoId provided") && unchanged(st)
    ensures ParseObjectId(videoId).Some? ==> (
      var t := OnVideo(ParseObjectId(videoId).value);
      st.likes == ToggleLike(old(st.likes), me, t, old(st.nextId))
      && (Liked(old(st.likes), me, t) ==> (o == Reply(200, 200, Blank(EmptyObject), "Like removed from video")
        && st.Snapshot() == old(st.Snapshot()).(likes := st.likes)))
      && (!Liked(old(st.likes), me, t) ==> (o == Reply(201, 201, Blank(EmptyObject), "Like added to video")
        && st.Snapshot() == old(st.Snapshot()).(likes := st.likes, nextId := old(st.nextId) + 1))))
  {
    if videoId == "" {
      o := Crash("Cast to ObjectId failed for value \"\" at path \"video\"");
      return;
    }
    match ParseObjectId(videoId)
    case None =>
      o := Throw(400, "Invalid videoId provided");
    case Some(v) =>
      o := ToggleOn(st, me, OnVideo(v), "Like removed from video", "Like added to video");
  }

  /** `toggleLikeOnComment`: the same check-then-act keyed on (comment, likedBy). */
  method ToggleLikeOnComment(st: Store, me: Id, commentId: string) returns (o: Outcome<()>)
    requires st.Valid()
    modifies st
    ensures st.Valid()
    ensures commentId == "" ==> o.IsError(500) && unchanged(st)
    ensures commentId != "" && ParseObjectId(commentId).None? ==>
      o == Throw(400, "Invalid commentId provided") && unchanged(st)
    ensures ParseObjectId(commentId).Some? ==> (
      var t := OnComment(ParseObjectId(commentId).value);
      st.likes == ToggleLike(old(st.likes), me, t, old(st.nextId))
      && (Liked(old(st.likes), me, t) ==> (o == Reply(200, 200, Blank(EmptyObject), "Like removed from comment")
        && st.Snapshot() == old(st.Snapshot()).(likes := st.likes)))
      && (!Liked(old(st.likes), me, t) ==> (o == Reply(201, 201, Blank(EmptyObject), "Like added to comment")
        && st.Snapshot() == old(st.Snapshot()).(likes := st.likes, nextId := old(st.nextId) + 1))))
  {
    if commentId == "" {
      o := Crash("Cast to ObjectId failed for value \"\" at path \"comment\"");
      return;
    }
    match ParseObjectId(commentId)
    case None =>
      o := Throw(400, "Invalid commentId provided");
    case Some(c) =>
      o := ToggleOn(st, me, OnComment(c), "Like removed from comment", "Like added to comment");
  }
}
