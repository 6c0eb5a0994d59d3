/**
 * The Comment, Like, Subscription and Playlist documents
 * (models/comment.model.js, like.model.js, subscription.model.js,
 * playlist.model.js).
 */
module Records {
  import opened Wrappers
  import opened ObjectIds

  /**
   * A comment.  The schema has no `ownerAvatar` path, so the avatar a handler
   * passes at creation is not stored (a strict schema drops unknown paths).
   */
  datatype Comment = Comment(id: Id, content: string, ownerId: Id, ownerUsername: string, videoId: Id)

  /** A like on a video (`video` set) or on a comment (`comment` set) by `likedBy`. */
  datatype Like = Like(id: Id, likedBy: Id, video: Option<Id>, comment: Option<Id>)

  datatype Subscription = Subscription(id: Id, subscriber: Id, channel: Id)

  datatype Playlist = Playlist(
    id: Id,
    name: string,
    description: string,
    videos: seq<Id>,
    coverImage: Option<string>,
    ownerId: Id,
    ownerChannelName: Option<string>)

  /**
   * `Comment.create(...)`: `content` and `ownerUsername` are required Strings,
   * so an empty one fails validation (`None`); the avatar is dropped.
   */
  function NewCommentDoc(id: Id, content: string, ownerId: Id, ownerUsername: string,
                         ownerAvatar: string, videoId: Id): (r: Option<Comment>)
    ensures r.Some? <==> content != "" && ownerUsername != ""
    ensures r.Some? ==> (r.value.id == id && r.value.content == content && r.value.ownerId == ownerId
      && r.value.ownerUsername == ownerUsername && r.value.videoId == videoId)
  {
    if content != "" && ownerUsername != "" then Some(Comment(id, content, ownerId, ownerUsername, videoId))
    else None
  }

  /**
   * `Playlist.create(...)`: `name` and `description` are required Strings; the
   * handler has already refused empty ones, so this cannot fail for it.
   */
  function NewPlaylistDoc(id: Id, name: string, description: string, videos: seq<Id>,
                          coverImage: string, ownerId: Id, ownerChannelName: string): (r: Option<Playlist>)
    ensures r.Some? <==> name != "" && description != ""
    ensures r.Some? ==> (r.value.id == id && r.value.name == name && r.value.description == description
      && r.value.videos == videos && r.value.coverImage == Some(coverImage)
      && r.value.ownerId == ownerId && r.value.ownerChannelName == Some(ownerChannelName))
  {
    if name != "" && description != ""
    then Some(Playlist(id, name, description, videos, Some(coverImage), ownerId, Some(ownerChannelName)))
    else None
  }
}
