/**
 * The Video document (models/video.model.js): which paths are required, which
 * are optional, and the two defaults.
 */
module VideoModel {
  import opened Wrappers
  import opened ObjectIds
  import opened UserModel

  datatype Video = Video(
    id: Id,
    title: string,
    description: string,
    thumbnail: string,
    videoFile: string,
    duration: Option<string>,
    views: int,
    publishStatus: string,
    ownerId: Id,
    ownerUsername: string,
    ownerChannelName: Option<string>,
    ownerAvatar: Option<string>)

  /** The values `Video.create` is given; `None` is an absent (undefined or null) value. */
  datatype VideoFields = VideoFields(
    title: Option<string>,
    description: Option<string>,
    thumbnail: Option<string>,
    videoFile: Option<string>,
    duration: Option<string>,
    ownerId: Option<Id>,
    ownerUsername: Option<string>,
    ownerChannelName: Option<string>,
    ownerAvatar: Option<string>)

  const DefaultViews := 0
  const DefaultPublishStatus := "public"

  /**
   * `Video.create(fields)`: `None` is the validation error raised when a
   * required path (title, description, thumbnail, videoFile, ownerId,
   * ownerUsername) is absent or an empty string.  Optional paths are stored as
   * given; `views` and `publishStatus` take their defaults.
   */
  function NewVideoDoc(id: Id, f: VideoFields): (r: Option<Video>)
    ensures r.Some? <==>
      Present(f.title) && Present(f.description) && Present(f.thumbnail)
      && Present(f.videoFile) && f.ownerId.Some? && Present(f.ownerUsername)
    ensures r.Some? ==> (r.value.id == id
      && r.value.title == f.title.value && r.value.description == f.description.value
      && r.value.thumbnail == f.thumbnail.value && r.value.videoFile == f.videoFile.value
      && r.value.ownerId == f.ownerId.value && r.value.ownerUsername == f.ownerUsername.value)
    ensures r.Some? ==> (r.value.duration == f.duration
      && r.value.ownerChannelName == f.ownerChannelName && r.value.ownerAvatar == f.ownerAvatar)
    ensures r.Some? ==> r.value.views == 0 && r.value.publishStatus == "public"
  {
    if Present(f.title) && Present(f.description) && Present(f.thumbnail)
       && Present(f.videoFile) && f.ownerId.Some? && Present(f.ownerUsername)
    then
      Some(Video(id, f.title.value, f.description.value, f.thumbnail.value, f.videoFile.value,
                 f.duration, DefaultViews, DefaultPublishStatus, f.ownerId.value,
                 f.ownerUsername.value, f.ownerChannelName, f.ownerAvatar))
    else None
  }
}
