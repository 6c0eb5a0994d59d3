/**
 * controllers/playlist.controller.js: `findOwnerOfPlaylist`,
 * `createPlaylistAndAddVideos`, `addVideosToSelectedPlaylist`,
 * `removeVideosFromPlaylist`, `updatePlaylistDetails`, `getPlaylistById`,
 * `deletePlaylistById` and `getAllPlaylists`.
 *
 * Three handlers call `findOwnerOfPlaylist(req)` without `await`, so they
 * destructure `playlist` and `playlistOwner` from a pending promise and get
 * `undefined` for both.  Each of them is modelled twice: as written
 * (`…AsWritten`, which never changes the store) and with the `await` the
 * code evidently intends.
 */
module PlaylistController {
  import opened Wrappers
  import opened ObjectIds
  import opened Seqs
  import opened Text
  import opened Paging
  import opened Sorting
  import opened Envelope
  import opened UserModel
  import opened VideoModel
  import opened Records
  import opened StoreState

  /** Every string of `ss` read as an ObjectId, when all of them are valid (`ids.every(isValid)`). */
  function ParseAll(ss: seq<string>): (r: Option<seq<Id>>)
    ensures r.Some? <==> forall k :: 0 <= k < |ss| ==> ParseObjectId(ss[k]).Some?
    ensures r.Some? ==> |r.value| == |ss| && forall k :: 0 <= k < |ss| ==> r.value[k] == ParseObjectId(ss[k]).value
  {
    if ss == [] then Some([])
    else
      var rest := ParseAll(ss[1..]);
      assert forall k :: 1 <= k < |ss| ==> ss[1..][k - 1] == ss[k];
      if ParseObjectId(ss[0]).Some? && rest.Some? then Some([ParseObjectId(ss[0]).value] + rest.value)
      else None
  }

  /**
   * `findOwnerOfPlaylist` when awaited: an empty and a malformed id are 404; a
   * missing playlist makes `playlist.ownerId` a property read on `null` (500).
   */
  function FindOwnerOfPlaylist(playlists: seq<Playlist>, playlistId: string): (r: Lookup<Playlist>)
    ensures playlistId == "" ==> r == Stop(Raised(404, "Please provide a playlist id"))
    ensures playlistId != "" && ParseObjectId(playlistId).None? ==> r == Stop(Raised(404, "Invalid Playlist Id provided"))
    ensures ParseObjectId(playlistId).Some? ==> (
      (r.Found? <==> exists k :: 0 <= k < |playlists| && playlists[k].id == ParseObjectId(playlistId).value)
      && (r.Stop? ==> r.error.statusCode == Code(500)))
    ensures r.Found? ==> (r.index < |playlists| && r.doc == playlists[r.index]
      && r.doc.id == ParseObjectId(playlistId).value)
  {
    if playlistId == "" then Stop(Raised(404, "Please provide a playlist id"))
    else match ParseObjectId(playlistId)
      case None => Stop(Raised(404, "Invalid Playlist Id provided"))
      case Some(p) =>
        match IndexOfId(playlists, PlaylistId, p)
        case Some(k) => Found(k, playlists[k])
        case None => Stop(Raised(500, "Cannot read properties of null (reading 'ownerId')"))
  }

  /** `Playlist.findOne({ name })`: a playlist of any owner already has the name. */
  predicate NameTaken(playlists: seq<Playlist>, name: string) {
    exists k :: 0 <= k < |playlists| && playlists[k].name == name
  }

  /**
   * `(await Video.findById(videoIds[0])).thumbnail`: the thumbnail of the
   * first listed video.  Nothing when no list was sent, the list is empty,
   * the first id does not cast or names no video; each is a 500 in the handler.
   */
  function CoverOf(videos: seq<Video>, videoIds: Option<seq<string>>): (r: Option<string>)
    ensures r.Some? <==> (videoIds.Some? && |videoIds.value| > 0 && ParseObjectId(videoIds.value[0]).Some?
      && exists k :: 0 <= k < |videos| && videos[k].id == ParseObjectId(videoIds.value[0]).value)
    ensures r.Some? ==> exists k :: (0 <= k < |videos| && videos[k].id == ParseObjectId(videoIds.value[0]).value
      && videos[k].thumbnail == r.value)
  {
    if videoIds.None? || |videoIds.value| == 0 then None
    else match ParseObjectId(videoIds.value[0])
      case None => None
      case Some(first) =>
        match IndexOfId(videos, VideoId, first)
        case Some(k) => Some(videos[k].thumbnail)
        case None => None
  }

  /**
   * `createPlaylistAndAddVideos`: name and description are required (400) and
   * the name must be new among all playlists of all owners (409).  The cover
   * is the first listed video's thumbnail; the videos are the listed ids in
   * order, none but the first looked up.
   */
  method CreatePlaylistAndAddVideos(st: Store, me: User, name: Option<string>, description: Option<string>,
                                    videoIds: Option<seq<string>>) returns (o: Outcome<Playlist>)
    requires st.Valid()
    modifies st
    ensures st.Valid()
    ensures !Truthy(name) || !Truthy(description) ==>
      o == Throw(400, "Please enter a name and description for this playlist") && unchanged(st)
    ensures Truthy(name) && Truthy(description) && NameTaken(old(st.playlists), name.value) ==>
      o == ThrowNamed(409, "Playlist with same name already exists", "name") && unchanged(st)
    ensures (Truthy(name) && Truthy(description) && !NameTaken(old(st.playlists), name.value)
             && (CoverOf(old(st.videos), videoIds).None? || ParseAll(videoIds.value).None?)) ==>
        o.IsError(500) && unchanged(st)
    ensures (Truthy(name) && Truthy(description) && !NameTaken(old(st.playlists), name.value)
             && CoverOf(old(st.videos), videoIds).Some? && ParseAll(videoIds.value).Some?) ==> (
        var p := Playlist(old(st.nextId), name.value, description.value, ParseAll(videoIds.value).value,
                          CoverOf(old(st.videos), videoIds), me.id, Some(me.fullName));
        o == Reply(200, 200, Doc(p), "Playlist created successfully")
        && st.Snapshot() == old(st.Snapshot()).(playlists := old(st.playlists) + [p], nextId := old(st.nextId) + 1))
  {
    if !Truthy(name) || !Truthy(description) {
      o := Throw(400, "Please enter a name and description for this playlist");
      return;
    }
    if NameTaken(st.playlists, name.value) {
      o := ThrowNamed(409, "Playlist with same name already exists", "name");
      return;
    }
    var cover := CoverOf(st.videos, videoIds);
    if cover.None? {
      o := Crash("Cannot read properties of null (reading 'thumbnail')");
      return;
    }
    var ids := ParseAll(videoIds.value);
    if ids.None? {
      o := Crash("Playlist validation failed: videos: Cast to [ObjectId] failed");
      return;
    }
    match NewPlaylistDoc(st.nextId, name.value, description.value, ids.value, cover.value, me.id, me.fullName)
    case None =>
      o := Crash("Playlist validation failed");
    case Some(p) =>
      st.InsertPlaylist(p);
      o := Reply(200, 200, Doc(p), "Playlist created successfully");
  }

  /** What `updateMany` resolves to: how many playlists matched and how many changed. */
  datatype UpdateResult = UpdateResult(matchedCount: nat, modifiedCount: nat)

  /** The filter `{ _id: { $in: targets } }`. */
  function Targeted(targets: seq<Id>): Playlist -> bool {
    (p: Playlist) => p.id in targets
  }

  /** A targeted playlist that the `$addToSet` changes. */
  function Grows(targets: seq<Id>, ids: seq<Id>): Playlist -> bool {
    (p: Playlist) => p.id in targets && AddToSet(p.videos, ids) != p.videos
  }

  /**
   * `updateMany({ _id: { $in: targets } }, { $addToSet: { videos: { $each: ids } } })`:
   * every targeted playlist keeps its entries in front in their order and is
   * followed by the given ids it lacked, each once, in the order of their first
   * occurrence in `ids`; the others stay as they were.
   */
  function AddVideosTo(playlists: seq<Playlist>, targets: seq<Id>, ids: seq<Id>): (r: seq<Playlist>)
    ensures |r| == |playlists|
    ensures forall k :: 0 <= k < |r| ==> r[k].id == playlists[k].id
    ensures forall k :: 0 <= k < |r| && playlists[k].id !in targets ==> r[k] == playlists[k]
    ensures forall k :: 0 <= k < |r| && playlists[k].id in targets ==> (
      r[k] == playlists[k].(videos := r[k].videos)
      && |playlists[k].videos| <= |r[k].videos| && r[k].videos[..|playlists[k].videos|] == playlists[k].videos
      && (forall x :: x in r[k].videos <==> x in playlists[k].videos || x in ids)
      && (forall i :: |playlists[k].videos| <= i < |r[k].videos| ==> r[k].videos[i] !in playlists[k].videos)
      && NoDuplicates(r[k].videos[|playlists[k].videos|..])
      && r[k].videos == playlists[k].videos + Dedup(Filter(ids, NotIn(playlists[k].videos)))
      && (NoDuplicates(playlists[k].videos) ==> NoDuplicates(r[k].videos)))
  {
    var r := seq(|playlists|, k requires 0 <= k < |playlists| =>
      if playlists[k].id in targets then playlists[k].(videos := AddToSet(playlists[k].videos, ids))
      else playlists[k]);
    assert forall k :: 0 <= k < |r| && playlists[k].id in targets ==>
      r[k].videos == playlists[k].videos + Dedup(Filter(ids, NotIn(playlists[k].videos))) by {
      forall k | 0 <= k < |r| && playlists[k].id in targets
        ensures r[k].videos == playlists[k].videos + Dedup(Filter(ids, NotIn(playlists[k].videos)))
      {
        AddToSetOrder(playlists[k].videos, ids);
      }
    }
    r
  }

  /**
   * `addVideosToSelectedPlaylist`: the video ids must be an array of valid ids
   * (404).  There is no ownership check: any caller adds to any playlist.  A
   * playlist id that does not cast fails the update (500).
   */
  method AddVideosToSelectedPlaylist(st: Store, playlistIds: seq<string>, videoIds: Option<seq<string>>)
    returns (o: Outcome<UpdateResult>)
    requires st.Valid()
    modifies st
    ensures st.Valid()
    ensures videoIds.None? || ParseAll(videoIds.value).None? ==>
      o == Throw(404, "Video IDs must be in array format and all valid objectIds") && unchanged(st)
    ensures videoIds.Some? && ParseAll(videoIds.value).Some? && ParseAll(playlistIds).None? ==>
      o.IsError(500) && unchanged(st)
    ensures videoIds.Some? && ParseAll(videoIds.value).Some? && ParseAll(playlistIds).Some? ==> (
      var targets := ParseAll(playlistIds).value;
      var ids := ParseAll(videoIds.value).value;
      st.Snapshot() == old(st.Snapshot()).(playlists := AddVideosTo(old(st.playlists), targets, ids))
      && o == Reply(200, 200, Doc(UpdateResult(Count(old(st.playlists), Targeted(targets)),
                                              Count(old(st.playlists), Grows(targets, ids)))),
                    "Videos added to playlist successfully"))
  {
    if videoIds.None? || ParseAll(videoIds.value).None? {
      o := Throw(404, "Video IDs must be in array format and all valid objectIds");
      return;
    }
    var ids := ParseAll(videoIds.value).value;
    match ParseAll(playlistIds)
    case None =>
      o := Crash("Cast to ObjectId failed for value at path \"_id\" for model \"Playlist\"");
    case Some(targets) =>
      var result := UpdateResult(Count(st.playlists, Targeted(targets)), Count(st.playlists, Grows(targets, ids)));
      st.playlists := AddVideosTo(st.playlists, targets, ids);
      o := Reply(200, 200, Doc(result), "Videos added to playlist successfully");
  }

  /**
   * Whether the detached `findOwnerOfPlaylist` promise of an un-awaited call
   * rejects: it does exactly when the awaited lookup would stop with an
   * error.  No handler is attached to it and the server installs no
   * `unhandledRejection` listener, so the Node process then terminates.
   */
  predicate DetachedLookupRejects(playlists: seq<Playlist>, playlistId: string) {
    FindOwnerOfPlaylist(playlists, playlistId).Stop?
  }

  /**
   * `removeVideosFromPlaylist` as written: after the id check, `playlist._id`
   * reads a property of `undefined` (500).  Nothing is ever removed.  When
   * the playlist id is missing, malformed or unknown, the process also exits.
   */
  method RemoveVideosFromPlaylistAsWritten(playlists: seq<Playlist>, playlistId: string, videoIds: Option<seq<string>>)
    returns (o: Outcome<Playlist>, processExits: bool)
    ensures videoIds.None? || ParseAll(videoIds.value).None? ==>
      o == Throw(404, "Video IDs must be in array format and all valid objectIds")
    ensures videoIds.Some? && ParseAll(videoIds.value).Some? ==>
      o == Crash("Cannot read properties of undefined (reading '_id')")
    ensures processExits <==>
      playlistId == "" || ParseObjectId(playlistId).None? || IndexOfId(playlists, PlaylistId, ParseObjectId(playlistId).value).None?
  {
    processExits := DetachedLookupRejects(playlists, playlistId);
    if videoIds.None? || ParseAll(videoIds.value).None? {
      o := Throw(404, "Video IDs must be in array format and all valid objectIds");
    } else {
      o := Crash("Cannot read properties of undefined (reading '_id')");
    }
  }

  /**
   * `removeVideosFromPlaylist` with the lookup awaited but the update as
   * written: `$each` is a modifier of `$push` and `$addToSet` only, so the
   * `$pull: { videos: { $each: ids } }` update is refused and the handler
   * answers 500 with the refusal's message, `rejection`.  Nothing is removed.
   */
  method RemoveVideosPullEachAsWritten(playlists: seq<Playlist>, playlistId: string, videoIds: Option<seq<string>>, rejection: string)
    returns (o: Outcome<Playlist>)
    ensures var r := FindOwnerOfPlaylist(playlists, playlistId);
      r.Stop? ==> o == Failed(r.error)
    ensures var r := FindOwnerOfPlaylist(playlists, playlistId);
      r.Found? && (videoIds.None? || ParseAll(videoIds.value).None?) ==>
        o == Throw(404, "Video IDs must be in array format and all valid objectIds")
    ensures var r := FindOwnerOfPlaylist(playlists, playlistId);
      r.Found? && videoIds.Some? && ParseAll(videoIds.value).Some? ==>
        o == Crash(rejection) && o.IsError(500)
  {
    match FindOwnerOfPlaylist(playlists, playlistId)
    case Stop(e) =>
      o := Failed(e);
    case Found(_, _) =>
      if videoIds.None? || ParseAll(videoIds.value).None? {
        o := Throw(404, "Video IDs must be in array format and all valid objectIds");
      } else {
        o := Crash(rejection);
      }
  }

  /**
   * `removeVideosFromPlaylist` with the lookup awaited and the update written
   * as `$pull: { videos: { $in: ids } }`: every occurrence of the given ids
   * leaves the playlist and the other entries keep their order.  The handler
   * checks no ownership.
   */
  method RemoveVideosFromPlaylist(st: Store, playlistId: string, videoIds: Option<seq<string>>)
    returns (o: Outcome<Playlist>)
    requires st.Valid()
    modifies st
    ensures st.Valid()
    ensures var r := FindOwnerOfPlaylist(old(st.playlists), playlistId);
      r.Stop? ==> o == Failed(r.error) && unchanged(st)
    ensures var r := FindOwnerOfPlaylist(old(st.playlists), playlistId);
      r.Found? && (videoIds.None? || ParseAll(videoIds.value).None?) ==>
        o == Throw(404, "Video IDs must be in array format and all valid objectIds") && unchanged(st)
    ensures var r := FindOwnerOfPlaylist(old(st.playlists), playlistId);
      r.Found? && videoIds.Some? && ParseAll(videoIds.value).Some? ==> (
        var ids := ParseAll(videoIds.value).value;
        var pulled := r.doc.(videos := Pull(r.doc.videos, ids));
        o == Reply(200, 200, Doc(pulled), "Videos removed from playlist successfully")
        && st.Snapshot() == old(st.Snapshot()).(playlists := old(st.playlists)[r.index := pulled])
        && (forall x :: x in ids ==> x !in pulled.videos))
  {
    match FindOwnerOfPlaylist(st.playlists, playlistId)
    case Stop(e) =>
      o := Failed(e);
    case Found(k, p) =>
      if videoIds.None? || ParseAll(videoIds.value).None? {
        o := Throw(404, "Video IDs must be in array format and all valid objectIds");
        return;
      }
      var pulled := p.(videos := Pull(p.videos, ParseAll(videoIds.value).value));
      st.ReplacePlaylist(k, pulled);
      o := Reply(200, 200, Doc(pulled), "Videos removed from playlist successfully");
  }

  /**
   * Adding ids a playlist does not hold and then removing the same ids gives
   * the playlist its old video list back.
   */
  lemma AddThenRemoveRestores(p: Playlist, ids: seq<Id>)
    requires forall x :: x in p.videos ==> x !in ids
    ensures Pull(AddToSet(p.videos, ids), ids) == p.videos
  {
    PullAfterAddToSet(p.videos, ids);
  }

  /**
   * `updatePlaylistDetails` as written: `undefined !== req.user._id.toString()`,
   * so every caller gets 403.  When the playlist id is missing, malformed or
   * unknown, the process also exits.
   */
  method UpdatePlaylistDetailsAsWritten(playlists: seq<Playlist>, me: Id, playlistId: string,
                                        name: Option<string>, description: Option<string>)
    returns (o: Outcome<Playlist>, processExits: bool)
    ensures o == Throw(403, "Unauthorized to update this playlist")
    ensures processExits <==>
      playlistId == "" || ParseObjectId(playlistId).None? || IndexOfId(playlists, PlaylistId, ParseObjectId(playlistId).value).None?
  {
    processExits := DetachedLookupRejects(playlists, playlistId);
    o := Throw(403, "Unauthorized to update this playlist");
  }

  /**
   * The `$set: { name, description }`: a field sent in the body replaces the
   * stored one (an omitted field is dropped from the update); nothing else
   * changes.
   */
  function Renamed(p: Playlist, name: Option<string>, description: Option<string>): (r: Playlist)
    ensures r.name == name.GetOr(p.name) && r.description == description.GetOr(p.description)
    ensures r.(name := p.name, description := p.description) == p
  {
    p.(name := name.GetOr(p.name), description := description.GetOr(p.description))
  }

  /**
   * `updatePlaylistDetails` with the lookup awaited: a non-owner gets 403, a
   * request with neither name nor description 400, both with no change.
   */
  method UpdatePlaylistDetails(st: Store, me: Id, playlistId: string, name: Option<string>, description: Option<string>)
    returns (o: Outcome<Playlist>)
    requires st.Valid()
    modifies st
    ensures st.Valid()
    ensures var r := FindOwnerOfPlaylist(old(st.playlists), playlistId);
      r.Stop? ==> o == Failed(r.error) && unchanged(st)
    ensures var r := FindOwnerOfPlaylist(old(st.playlists), playlistId);
      r.Found? && r.doc.ownerId != me ==> o == Throw(403, "Unauthorized to update this playlist") && unchanged(st)
    ensures var r := FindOwnerOfPlaylist(old(st.playlists), playlistId);
      r.Found? && r.doc.ownerId == me && !Truthy(name) && !Truthy(description) ==>
        o == Throw(400, "No changes provided by user") && unchanged(st)
    ensures var r := FindOwnerOfPlaylist(old(st.playlists), playlistId);
      r.Found? && r.doc.ownerId == me && (Truthy(name) || Truthy(description)) ==> (
        var updated := Renamed(r.doc, name, description);
        o == Reply(200, 200, Doc(updated), "Playlist details updated successfully")
        && st.Snapshot() == old(st.Snapshot()).(playlists := old(st.playlists)[r.index := updated]))
  {
    match FindOwnerOfPlaylist(st.playlists, playlistId)
    case Stop(e) =>
      o := Failed(e);
    case Found(k, p) =>
      if p.ownerId != me {
        o := Throw(403, "Unauthorized to update this playlist");
      } else if !Truthy(name) && !Truthy(description) {
        o := Throw(400, "No changes provided by user");
      } else {
        var updated := Renamed(p, name, description);
        st.ReplacePlaylist(k, updated);
        o := Reply(200, 200, Doc(updated), "Playlist details updated successfully");
      }
  }

  /**
   * `deletePlaylistById` as written: the owner read from the pending promise
   * is `undefined`, so every caller gets 403.  When the playlist id is
   * missing, malformed or unknown, the process also exits.
   */
  method DeletePlaylistByIdAsWritten(playlists: seq<Playlist>, me: Id, playlistId: string)
    returns (o: Outcome<Playlist>, processExits: bool)
    ensures o == Throw(403, "Unauthorized to Delete this playlist")
    ensures processExits <==>
      playlistId == "" || ParseObjectId(playlistId).None? || IndexOfId(playlists, PlaylistId, ParseObjectId(playlistId).value).None?
  {
    processExits := DetachedLookupRejects(playlists, playlistId);
    o := Throw(403, "Unauthorized to Delete this playlist");
  }

  /**
   * `deletePlaylistById` with the lookup awaited: a non-owner gets 403 with no
   * change; the owner's request removes exactly that playlist and returns it.
   */
  method DeletePlaylistById(st: Store, me: Id, playlistId: string) returns (o: Outcome<Playlist>)
    requires st.Valid()
    modifies st
    ensures st.Valid()
    ensures var r := FindOwnerOfPlaylist(old(st.playlists), playlistId);
      r.Stop? ==> o == Failed(r.error) && unchanged(st)
    ensures var r := FindOwnerOfPlaylist(old(st.playlists), playlistId);
      r.Found? && r.doc.ownerId != me ==> o == Throw(403, "Unauthorized to Delete this playlist") && unchanged(st)
    ensures var r := FindOwnerOfPlaylist(old(st.playlists), playlistId);
      r.Found? && r.doc.ownerId == me ==> (
        o == Reply(200, 200, Doc(r.doc), "Playlist deleted successfully")
        && st.Snapshot() == old(st.Snapshot()).(playlists := RemoveAt(old(st.playlists), r.index))
        && forall q :: q in st.playlists <==> q in old(st.playlists) && q.id != r.doc.id)
  {
    match FindOwnerOfPlaylist(st.playlists, playlistId)
    case Stop(e) =>
      o := Failed(e);
    case Found(k, p) =>
      if p.ownerId != me {
        o := Throw(403, "Unauthorized to Delete this playlist");
        return;
      }
      RemoveAtOnlyThatId(st.playlists, k, PlaylistId, st.nextId);
      RemoveAtIdsOk(st.playlists, k, PlaylistId, st.nextId);
      st.playlists := RemoveAt(st.playlists, k);
      o := Reply(200, 200, Doc(p), "Playlist deleted successfully");
  }

  /**
   * `populate('videos')`: each listed id that names a video becomes that video,
   * in list order; an id naming no video is dropped.
   */
  function Populate(videos: seq<Video>, ids: seq<Id>): (r: seq<Video>)
    ensures |r| <= |ids|
    ensures forall v :: v in r ==> v in videos && v.id in ids
    ensures |r| == Count(ids, Stored(videos))
    ensures forall k :: 0 <= k < |r| ==> r[k].id == Filter(ids, Stored(videos))[k]
  {
    if ids == [] then []
    else
      var init, last := ids[..|ids| - 1], ids[|ids| - 1];
      var front := Populate(videos, init);
      assert ids == init + [last];
      FilterAppend(init, [last], Stored(videos));
      assert [last][1..] == [];
      match IndexOfId(videos, VideoId, last)
      case Some(k) => front + [videos[k]]
      case None => front
  }

  /** The ids that name a stored video. */
  function Stored(videos: seq<Video>): Id -> bool {
    (id: Id) => IndexOfId(videos, VideoId, id).Some?
  }

  /** `videos.reduce((acc, video) => acc + video.views, 0)`. */
  function TotalViews(vs: seq<Video>): int {
    if vs == [] then 0 else TotalViews(vs[..|vs| - 1]) + vs[|vs| - 1].views
  }

  /** The total over two lists is the sum of the totals. */
  lemma {:induction false} TotalViewsAppend(a: seq<Video>, b: seq<Video>)
    ensures TotalViews(a + b) == TotalViews(a) + TotalViews(b)
    decreases |b|
  {
    if b != [] {
      var b' := b[..|b| - 1];
      assert (a + b)[..|a + b| - 1] == a + b';
      TotalViewsAppend(a, b');
    } else {
      assert a + b == a;
    }
  }

  /**
   * Adding to a playlist the id of a video it does not list raises its total
   * views by exactly that video's views.
   */
  lemma AddedVideoAddsViews(videos: seq<Video>, bound: nat, listed: seq<Id>, k: nat)
    requires IdsOk(videos, VideoId, bound) && k < |videos| && videos[k].id !in listed
    ensures TotalViews(Populate(videos, AddToSet(listed, [videos[k].id])))
         == TotalViews(Populate(videos, listed)) + videos[k].views
  {
    var x := videos[k].id;
    assert [x][1..] == [];
    assert AddToSet(listed, [x]) == listed + [x];
    assert (listed + [x])[..|listed|] == listed;
    IndexOfIdUnique(videos, VideoId, bound, x, k);
    assert Populate(videos, listed + [x]) == Populate(videos, listed) + [videos[k]];
    TotalViewsAppend(Populate(videos, listed), [videos[k]]);
    assert [videos[k]][..0] == [];
  }

  /** The playlist with its `videos` populated and the `totalViews` the handler adds. */
  datatype PlaylistView = PlaylistView(playlist: Playlist, videos: seq<Video>, totalViews: int)

  /**
   * `getPlaylistById`: a malformed id and a missing playlist are both 404;
   * otherwise the playlist with its videos and their total views.
   */
  function GetPlaylistById(db: Db, playlistId: string): (o: Outcome<PlaylistView>)
    ensures ParseObjectId(playlistId).None? ==> o == Throw(404, "Invalid playlist Id provided")
    ensures ParseObjectId(playlistId).Some? && IndexOfId(db.playlists, PlaylistId, ParseObjectId(playlistId).value).None? ==>
      o == Throw(404, "Playlist with this Id not found")
    ensures ParseObjectId(playlistId).Some? && IndexOfId(db.playlists, PlaylistId, ParseObjectId(playlistId).value).Some? ==> (
      var p := db.playlists[IndexOfId(db.playlists, PlaylistId, ParseObjectId(playlistId).value).value];
      o.Replied? && o.http == 200 && o.body.statusCode == 200 && o.body.data.Doc?
      && o.body.data.value.playlist == p
      && o.body.data.value.videos == Populate(db.videos, p.videos)
      && o.body.data.value.totalViews == TotalViews(o.body.data.value.videos)
      && forall v :: v in o.body.data.value.videos ==> v in db.videos && v.id in p.videos)
  {
    match ParseObjectId(playlistId)
    case None => Throw(404, "Invalid playlist Id provided")
    case Some(id) =>
      match IndexOfId(db.playlists, PlaylistId, id)
      case None => Throw(404, "Playlist with this Id not found")
      case Some(k) =>
        var p := db.playlists[k];
        var vs := Populate(db.videos, p.videos);
        Reply(200, 200, Doc(PlaylistView(p, vs, TotalViews(vs))), "Playlist fetched successfully")
  }

  /**
   * The sort paths `getAllPlaylists` is given: `createdAt` (which follows the
   * id) or a path no playlist has, such as its default "-createdAt", which
   * leaves every key equal.
   */
  datatype PlaylistSort = ByCreatedAt | NoSuchPath

  function PlaylistKey(f: PlaylistSort): Playlist -> int {
    (p: Playlist) => match f
      case ByCreatedAt => p.id as int
      case NoSuchPath => 0
  }

  /** `find({ ownerId: userId })`. */
  function OwnedBy(owner: Id): Playlist -> bool {
    (p: Playlist) => p.ownerId == owner
  }

  /**
   * `getAllPlaylists`: the user's playlists sorted, then the page
   * `skip((page - 1) * limit)` / `limit(limit)` (defaults 1 and 20).  A
   * malformed user id fails to cast and a negative skip is refused (500).  An
   * empty page is answered with HTTP 200 and an envelope whose statusCode is
   * 404.  Under the default sort path the page is in creation order.
   */
  function GetAllPlaylists(playlists: seq<Playlist>, userId: string, page: Option<int>, limit: Option<int>,
                           sortBy: Option<PlaylistSort>, order: Option<string>): (o: Outcome<seq<Playlist>>)
    ensures ParseObjectId(userId).None? ==> o.IsError(500)
    ensures ParseObjectId(userId).Some? && SkipFor(page.GetOr(1), limit.GetOr(20)) < 0 ==> o.IsError(500)
    ensures ParseObjectId(userId).Some? && SkipFor(page.GetOr(1), limit.GetOr(20)) >= 0 ==> (
      var owner := ParseObjectId(userId).value;
      o.Replied? && o.http == 200
      && (o.body.data.Blank? <==> o.body.statusCode == 404)
      && (Count(playlists, OwnedBy(owner)) == 0 ==> o.body.data.Blank?)
      && (o.body.data.Doc? ==> (
        |o.body.data.value| > 0
        && (forall q :: q in o.body.data.value ==> q in playlists && q.ownerId == owner)
        && (limit.GetOr(20) != 0 ==> |o.body.data.value| <= Abs(limit.GetOr(20)))
        && SortedBy(o.body.data.value, PlaylistKey(sortBy.GetOr(NoSuchPath)), order.GetOr("desc") == "desc")))
      && FindPage(SortBy(Filter(playlists, OwnedBy(owner)), PlaylistKey(sortBy.GetOr(NoSuchPath)), order.GetOr("desc") == "desc"),
                  SkipFor(page.GetOr(1), limit.GetOr(20)), limit.GetOr(20),
                  if o.body.data.Doc? then o.body.data.value else []))
    ensures ParseObjectId(userId).Some? && sortBy.GetOr(NoSuchPath) == NoSuchPath && o.Replied? && o.body.data.Doc? ==> (
      var owned := Filter(playlists, OwnedBy(ParseObjectId(userId).value));
      var skip := SkipFor(page.GetOr(1), limit.GetOr(20));
      forall k :: 0 <= k < |o.body.data.value| ==> 0 <= skip + k < |owned| && o.body.data.value[k] == owned[skip + k])
  {
    match ParseObjectId(userId)
    case None => Crash("Cast to ObjectId failed for value \"" + userId + "\" at path \"ownerId\" for model \"Playlist\"")
    case Some(owner) =>
      match OwnerPage(playlists, owner, SkipFor(page.GetOr(1), limit.GetOr(20)), limit.GetOr(20),
                      sortBy.GetOr(NoSuchPath), order.GetOr("desc") == "desc")
      case None => Crash("BSON field 'skip' value must be >= 0")
      case Some(window) =>
        if window == [] then Reply(200, 404, Blank(EmptyObject), "This user has no playlists")
        else Reply(200, 200, Doc(window), "Playlists fetched successfully")
  }

  /** The query of `getAllPlaylists` once the user id has been cast. */
  function OwnerPage(playlists: seq<Playlist>, owner: Id, skip: int, limit: int, sortBy: PlaylistSort, descending: bool)
    : (r: Option<seq<Playlist>>)
    ensures r.None? <==> skip < 0
    ensures r.Some? && Count(playlists, OwnedBy(owner)) == 0 ==> r.value == []
    ensures r.Some? ==> forall q :: q in r.value ==> q in playlists && q.ownerId == owner
    ensures r.Some? && limit != 0 ==> |r.value| <= Abs(limit)
    ensures r.Some? ==> SortedBy(r.value, PlaylistKey(sortBy), descending)
    ensures r.Some? ==> FindPage(SortBy(Filter(playlists, OwnedBy(owner)), PlaylistKey(sortBy), descending), skip, limit, r.value)
    ensures r.Some? && sortBy == NoSuchPath ==>
      forall k :: 0 <= k < |r.value| ==> (0 <= skip + k < Count(playlists, OwnedBy(owner))
        && r.value[k] == Filter(playlists, OwnedBy(owner))[skip + k])
  {
    var key := PlaylistKey(sortBy);
    var owned := Filter(playlists, OwnedBy(owner));
    var sorted := SortBy(owned, key, descending);
    FilterMembership(playlists, OwnedBy(owner));
    SortByElements(owned, key, descending);
    SortBySorted(owned, key, descending);
    assert sortBy == NoSuchPath ==> sorted == owned by {
      if sortBy == NoSuchPath {
        SortByTies(owned, key, descending);
      }
    }
    match FindWindow(sorted, skip, limit)
    case None => None
    case Some(window) =>
      WindowOfSorted(sorted, window, skip, key, descending);
      Some(window)
  }
}
