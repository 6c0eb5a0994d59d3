/**
 * The database the handlers share: six collections of documents, each a
 * sequence in natural (insertion) order, and the source of fresh ObjectIds.
 *
 * ObjectIds grow with creation time, so a single counter `nextId` hands out
 * every new id (and every token serial); `createdAt` order is id order.
 */
module StoreState {
  import opened Wrappers
  import opened ObjectIds
  import opened Seqs
  import opened Text
  import opened UserModel
  import opened VideoModel
  import opened Records

  /** A snapshot of all collections, the argument of the read-only views. */
  datatype Db = Db(
    users: seq<User>,
    videos: seq<Video>,
    comments: seq<Comment>,
    likes: seq<Like>,
    subscriptions: seq<Subscription>,
    playlists: seq<Playlist>,
    nextId: nat)

  function UserId(u: User): Id { u.id }
  function VideoId(v: Video): Id { v.id }
  function CommentId(c: Comment): Id { c.id }
  function LikeId(l: Like): Id { l.id }
  function SubscriptionId(s: Subscription): Id { s.id }
  function PlaylistId(p: Playlist): Id { p.id }

  /** The documents of `s` are in increasing id order (insertion order) with ids below `bound`. */
  predicate IdsOk<T>(s: seq<T>, key: T -> Id, bound: nat) {
    Ascending(s, key) && (forall i :: 0 <= i < |s| ==> key(s[i]) < bound)
  }

  /** Ids strictly increase along the collection, so no two documents share one. */
  predicate Ascending<T>(s: seq<T>, key: T -> Id) {
    forall i, j :: 0 <= i < j < |s| ==> key(s[i]) < key(s[j])
  }

  /** The `_id` index, the `unique` indexes on `username` and `email`, and issued tokens. */
  predicate UsersOk(users: seq<User>, bound: nat) {
    IdsOk(users, UserId, bound)
    && (forall i, j :: 0 <= i < j < |users| ==> Apart(users[i], users[j]))
    && (forall i :: 0 <= i < |users| ==> AccountOk(users[i], bound))
  }

  /** Two users share neither username nor email. */
  predicate Apart(u: User, v: User) {
    u.username != v.username && u.email != v.email
  }

  /** A stored user's refresh token, if any, was issued before `bound`. */
  predicate AccountOk(u: User, bound: nat) {
    u.refreshToken.Some? ==> u.refreshToken.value.serial < bound
  }

  predicate ValidDb(db: Db) {
    UsersOk(db.users, db.nextId)
    && IdsOk(db.videos, VideoId, db.nextId)
    && IdsOk(db.comments, CommentId, db.nextId)
    && IdsOk(db.likes, LikeId, db.nextId)
    && IdsOk(db.subscriptions, SubscriptionId, db.nextId)
    && IdsOk(db.playlists, PlaylistId, db.nextId)
  }

  /** Filtering (any `deleteMany` / `findByIdAndDelete`) keeps the ids in order. */
  lemma {:induction false} FilterIdsOk<T(!new)>(s: seq<T>, p: T -> bool, key: T -> Id, bound: nat)
    requires IdsOk(s, key, bound)
    ensures IdsOk(Filter(s, p), key, bound)
  {
    if s != [] {
      FilterIdsOk(s[1..], p, key, bound);
      FilterMembership(s[1..], p);
      var rest := Filter(s[1..], p);
      forall j | 0 <= j < |rest| ensures key(s[0]) < key(rest[j]) {
        assert rest[j] in s[1..];
      }
    }
  }

  /** Inserting a document that takes the next id keeps the ids in order. */
  lemma AppendIdsOk<T>(s: seq<T>, x: T, key: T -> Id, bound: nat)
    requires IdsOk(s, key, bound) && key(x) == bound
    ensures IdsOk(s + [x], key, bound + 1)
  {
  }

  lemma RaiseIdsOk<T>(s: seq<T>, key: T -> Id, bound: nat, bound': nat)
    requires IdsOk(s, key, bound) && bound <= bound'
    ensures IdsOk(s, key, bound')
  {
  }

  /** Taking a fresh id keeps every collection valid. */
  lemma BumpKeepsValid(db: Db)
    requires ValidDb(db)
    ensures ValidDb(db.(nextId := db.nextId + 1))
  {
  }

  /** Removing one document keeps the ids in order. */
  lemma RemoveAtIdsOk<T(!new)>(s: seq<T>, i: nat, key: T -> Id, bound: nat)
    requires IdsOk(s, key, bound) && i < |s|
    ensures IdsOk(RemoveAt(s, i), key, bound)
  {
    var r := RemoveAt(s, i);
    forall a, b | 0 <= a < b < |r| ensures key(r[a]) < key(r[b]) {
      var a' := if a < i then a else a + 1;
      var b' := if b < i then b else b + 1;
      assert r[a] == s[a'] && r[b] == s[b'];
    }
  }

  /** With distinct ids, removing position `k` removes exactly the document with that id. */
  lemma RemoveAtOnlyThatId<T(!new)>(s: seq<T>, k: nat, key: T -> Id, bound: nat)
    requires IdsOk(s, key, bound) && k < |s|
    ensures forall x :: x in RemoveAt(s, k) <==> x in s && key(x) != key(s[k])
  {
    var r := RemoveAt(s, k);
    forall x ensures x in r <==> x in s && key(x) != key(s[k]) {
      if x in r {
        var j :| 0 <= j < |r| && r[j] == x;
        if j < k { assert r[j] == s[j]; } else { assert r[j] == s[j + 1]; }
      }
      if x in s && key(x) != key(s[k]) {
        var j :| 0 <= j < |s| && s[j] == x;
        if j < k { assert r[j] == x; } else { assert r[j - 1] == x; }
      }
    }
  }

  /** Replacing a document by one with the same id keeps the ids in order. */
  lemma ReplaceIdsOk<T>(s: seq<T>, i: nat, x: T, key: T -> Id, bound: nat)
    requires IdsOk(s, key, bound) && i < |s| && key(x) == key(s[i])
    ensures IdsOk(s[i := x], key, bound)
  {
  }

  /** `User.findOne({ username })` after the query setters: some user has the username. */
  predicate UsernameTaken(users: seq<User>, username: string) {
    exists k :: 0 <= k < |users| && users[k].username == username
  }

  /** `User.findOne({ email })` after the query setters: some user has the email. */
  predicate EmailTaken(users: seq<User>, email: string) {
    exists k :: 0 <= k < |users| && users[k].email == email
  }

  lemma ApartSymmetric(u: User, v: User)
    requires Apart(u, v)
    ensures Apart(v, u)
  {
  }

  /**
   * Replacing a user by one with the same id whose username and email no other
   * user has keeps the users collection valid.
   */
  lemma ReplaceUserOk(users: seq<User>, k: nat, u: User, bound: nat)
    requires UsersOk(users, bound) && k < |users| && u.id == users[k].id
    requires forall j :: 0 <= j < |users| && j != k ==> Apart(users[j], u)
    requires AccountOk(u, bound)
    ensures UsersOk(users[k := u], bound)
  {
    var r := users[k := u];
    ReplaceIdsOk(users, k, u, UserId, bound);
    forall a, b | 0 <= a < b < |r| ensures Apart(r[a], r[b]) {
      if a == k {
        assert r[a] == u && r[b] == users[b];
        ApartSymmetric(users[b], u);
      } else if b == k {
        assert r[a] == users[a] && r[b] == u;
      } else {
        assert r[a] == users[a] && r[b] == users[b];
      }
    }
    forall a | 0 <= a < |r| ensures AccountOk(r[a], bound) {
      if a != k {
        assert AccountOk(users[a], bound);
      }
    }
  }

  /** Appending a user that takes the next id, with a new username and email, keeps the collection valid. */
  lemma AppendUserOk(users: seq<User>, u: User, bound: nat)
    requires UsersOk(users, bound) && u.id == bound
    requires !UsernameTaken(users, u.username) && !EmailTaken(users, u.email)
    requires AccountOk(u, bound + 1)
    ensures UsersOk(users + [u], bound + 1)
  {
    var r := users + [u];
    AppendIdsOk(users, u, UserId, bound);
    forall a, b | 0 <= a < b < |r| ensures Apart(r[a], r[b]) {
      assert r[a] == users[a];
      if b < |users| {
        assert r[b] == users[b];
      }
    }
    forall a | 0 <= a < |r| ensures AccountOk(r[a], bound + 1) {
      if a < |users| {
        assert r[a] == users[a];
      }
    }
  }

  /** A user whose username and email stay as they were shares neither with any other user. */
  lemma SameNamesApart(users: seq<User>, k: nat, u: User, bound: nat)
    requires UsersOk(users, bound) && k < |users|
    requires u.username == users[k].username && u.email == users[k].email
    ensures forall j :: 0 <= j < |users| && j != k ==> Apart(users[j], u)
  {
    forall j | 0 <= j < |users| && j != k ensures Apart(users[j], u) {
      if j < k {
        assert Apart(users[j], users[k]);
      } else {
        assert Apart(users[k], users[j]);
      }
    }
  }

  /** Removing a user keeps the users collection valid. */
  lemma RemoveAtUsersOk(users: seq<User>, k: nat, bound: nat)
    requires UsersOk(users, bound) && k < |users|
    ensures UsersOk(RemoveAt(users, k), bound)
  {
    RemoveAtIdsOk(users, k, UserId, bound);
    var r := RemoveAt(users, k);
    forall a, b | 0 <= a < b < |r| ensures Apart(r[a], r[b]) {
      var a' := if a < k then a else a + 1;
      var b' := if b < k then b else b + 1;
      assert r[a] == users[a'] && r[b] == users[b'];
    }
  }

  /** The position of the document with `_id == id` (`findById`), if any. */
  function IndexOfId<T(!new)>(s: seq<T>, key: T -> Id, id: Id): (r: Option<nat>)
    ensures r.Some? ==> r.value < |s| && key(s[r.value]) == id
    ensures r.None? ==> forall k :: 0 <= k < |s| ==> key(s[k]) != id
  {
    FirstIndex(s, HasId(key, id))
  }

  function HasId<T>(key: T -> Id, id: Id): T -> bool {
    x => key(x) == id
  }

  /** With ids in order, the document with a given id is unique. */
  lemma IndexOfIdUnique<T(!new)>(s: seq<T>, key: T -> Id, bound: nat, id: Id, k: nat)
    requires IdsOk(s, key, bound) && k < |s| && key(s[k]) == id
    ensures IndexOfId(s, key, id) == Some(k)
  {
  }

  /**
   * The sender of a request whose token is optional: no token, a token that
   * `jwt.verify` rejects (it throws), or one it accepts for the user `id`.
   */
  datatype Caller = Anonymous | BadToken | Verified(id: Id)

  /**
   * `req.user?._id` after `req.user = await User.findById(decoded._id)`: the
   * caller's id when the token verifies and the user still exists.
   */
  function ViewerId(users: seq<User>, c: Caller): (r: Option<Id>)
    ensures r.Some? <==> c.Verified? && exists k :: 0 <= k < |users| && users[k].id == c.id
    ensures r.Some? ==> r.value == c.id
  {
    if c.Verified? && IndexOfId(users, UserId, c.id).Some? then Some(c.id) else None
  }

  class Store {
    var users: seq<User>
    var videos: seq<Video>
    var comments: seq<Comment>
    var likes: seq<Like>
    var subscriptions: seq<Subscription>
    var playlists: seq<Playlist>
    var nextId: nat

    /** An empty database. */
    constructor ()
      ensures Valid()
      ensures users == [] && videos == [] && comments == [] && likes == []
      ensures subscriptions == [] && playlists == [] && nextId == 0
    {
      users, videos, comments, likes := [], [], [], [];
      subscriptions, playlists, nextId := [], [], 0;
    }

    function Snapshot(): Db
      reads this
    {
      Db(users, videos, comments, likes, subscriptions, playlists, nextId)
    }

    predicate Valid()
      reads this
    {
      ValidDb(Snapshot())
    }

    /** A fresh ObjectId, greater than every id handed out before. */
    method NewId() returns (id: Id)
      requires Valid()
      modifies this`nextId
      ensures Valid()
      ensures id == old(nextId) && nextId == id + 1
    {
      BumpKeepsValid(Snapshot());
      id := nextId;
      nextId := nextId + 1;
    }

    /**
     * `user.save()` or `findByIdAndUpdate` on the user at position `k`: the id
     * stays, no other user gets its username or email, and a refresh token it
     * holds was issued before.
     */
    method ReplaceUser(k: nat, u: User)
      requires Valid() && k < |users| && u.id == users[k].id
      requires forall j :: 0 <= j < |users| && j != k ==> Apart(users[j], u)
      requires AccountOk(u, nextId)
      modifies this
      ensures Valid()
      ensures Snapshot() == old(Snapshot()).(users := old(users)[k := u])
    {
      ReplaceUserOk(users, k, u, nextId);
      users := users[k := u];
    }

    /**
     * The end of a transaction: the collections become those of `d`, which
     * hands out no id of its own.
     */
    method Commit(d: Db)
      requires ValidDb(d) && d.nextId == nextId
      modifies this
      ensures Valid()
      ensures Snapshot() == d
    {
      users, videos, comments, likes := d.users, d.videos, d.comments, d.likes;
      subscriptions, playlists := d.subscriptions, d.playlists;
    }

    /** `findByIdAndUpdate` on the video at position `k`: its id stays. */
    method ReplaceVideo(k: nat, v: Video)
      requires Valid() && k < |videos| && v.id == videos[k].id
      modifies this
      ensures Valid()
      ensures Snapshot() == old(Snapshot()).(videos := old(videos)[k := v])
    {
      ReplaceIdsOk(videos, k, v, VideoId, nextId);
      videos := videos[k := v];
    }

    /** `findByIdAndUpdate` on the comment at position `k`: its id stays. */
    method ReplaceComment(k: nat, c: Comment)
      requires Valid() && k < |comments| && c.id == comments[k].id
      modifies this
      ensures Valid()
      ensures Snapshot() == old(Snapshot()).(comments := old(comments)[k := c])
    {
      ReplaceIdsOk(comments, k, c, CommentId, nextId);
      comments := comments[k := c];
    }

    /** `findByIdAndUpdate` on the playlist at position `k`: its id stays. */
    method ReplacePlaylist(k: nat, p: Playlist)
      requires Valid() && k < |playlists| && p.id == playlists[k].id
      modifies this
      ensures Valid()
      ensures Snapshot() == old(Snapshot()).(playlists := old(playlists)[k := p])
    {
      ReplaceIdsOk(playlists, k, p, PlaylistId, nextId);
      playlists := playlists[k := p];
    }

    /** `Video.create`: the new video takes the next id. */
    method InsertVideo(v: Video)
      requires Valid() && v.id == nextId
      modifies this
      ensures Valid()
      ensures Snapshot() == old(Snapshot()).(videos := old(videos) + [v], nextId := old(nextId) + 1)
    {
      AppendIdsOk(videos, v, VideoId, nextId);
      videos := videos + [v];
      nextId := nextId + 1;
    }

    /** `User.create`: the new user takes the next id; its username and email are new. */
    method InsertUser(u: User)
      requires Valid() && u.id == nextId
      requires !UsernameTaken(users, u.username) && !EmailTaken(users, u.email)
      requires u.refreshToken == None
      modifies this
      ensures Valid()
      ensures Snapshot() == old(Snapshot()).(users := old(users) + [u], nextId := old(nextId) + 1)
    {
      AppendUserOk(users, u, nextId);
      users := users + [u];
      nextId := nextId + 1;
    }

    /** `Comment.create`: the new comment takes the next id. */
    method InsertComment(c: Comment)
      requires Valid() && c.id == nextId
      modifies this
      ensures Valid()
      ensures Snapshot() == old(Snapshot()).(comments := old(comments) + [c], nextId := old(nextId) + 1)
    {
      AppendIdsOk(comments, c, CommentId, nextId);
      comments := comments + [c];
      nextId := nextId + 1;
    }

    /** `Playlist.create`: the new playlist takes the next id. */
    method InsertPlaylist(p: Playlist)
      requires Valid() && p.id == nextId
      modifies this
      ensures Valid()
      ensures Snapshot() == old(Snapshot()).(playlists := old(playlists) + [p], nextId := old(nextId) + 1)
    {
      AppendIdsOk(playlists, p, PlaylistId, nextId);
      playlists := playlists + [p];
      nextId := nextId + 1;
    }
  }
}
