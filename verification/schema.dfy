/** The relational schema the controllers read and write, as immutable rows.
    Every table is a sequence of rows in storage order; the whole database is
    one `Db` value, and a handler that writes returns the next `Db`. */
module Schema {
  import opened Outcomes

  /** Primary keys are UUID strings, compared with `===`. */
  type Id = string

  datatype User = User(id: Id, username: string, channelDescription: string, avatar: string)

  datatype Video = Video(id: Id, userId: Id, title: string, description: string, createdAt: int)

  /** `subscriber` follows the channel of user `subscribeTo`. */
  datatype Subscription = Subscription(subscriber: Id, subscribeTo: Id)

  /** The sign stored in the `like` column of a `VideoLike` row. */
  datatype Reaction = Liked | Disliked
  {
    /** The column value: 1 for a like, -1 for a dislike. */
    function Column(): (c: int)
      ensures c == 1 || c == -1
      ensures c == 1 <==> this == Liked
    {
      if Liked? then 1 else -1
    }

    /** The other sign. */
    function Opposite(): (o: Reaction)
      ensures o != this
      ensures o.Column() == -Column()
    {
      if Liked? then Disliked else Liked
    }
  }

  datatype VideoLike = VideoLike(userId: Id, videoId: Id, like: Reaction)

  datatype View = View(userId: Id, videoId: Id)

  datatype Comment = Comment(userId: Id, videoId: Id, text: string, createdAt: int)

  datatype Db = Db(
    users: seq<User>,
    videos: seq<Video>,
    subscriptions: seq<Subscription>,
    likes: seq<VideoLike>,
    views: seq<View>,
    comments: seq<Comment>)

  /** `Model.findByPk(id)`: the first row whose primary key `key` is `id`,
      or null. */
  function FindByPk<T>(rows: seq<T>, key: T -> Id, id: Id): (r: Option<T>)
    ensures r.Some? ==> r.value in rows && key(r.value) == id
    ensures r.None? <==> forall i :: 0 <= i < |rows| ==> key(rows[i]) != id
  {
    if |rows| == 0 then None
    else if key(rows[0]) == id then Some(rows[0])
    else FindByPk(rows[1..], key, id)
  }

  /** Inserting a row at the end: a key already present still finds its
      first row, and a new key finds the inserted row. */
  lemma {:induction false} FindByPkAppend<T>(rows: seq<T>, key: T -> Id, x: T, id: Id)
    ensures FindByPk(rows + [x], key, id) ==
              if FindByPk(rows, key, id).Some? then FindByPk(rows, key, id)
              else if key(x) == id then Some(x)
              else None
  {
    if |rows| == 0 {
      assert rows + [x] == [x];
    } else {
      assert (rows + [x])[1..] == rows[1..] + [x];
      if key(rows[0]) != id {
        FindByPkAppend(rows[1..], key, x, id);
      }
    }
  }

  function UserKey(u: User): Id { u.id }

  function VideoKey(v: Video): Id { v.id }

  /** `User.findByPk(id)`. */
  function FindUser(users: seq<User>, id: Id): (r: Option<User>)
    ensures r.Some? ==> r.value in users && r.value.id == id
    ensures r.None? <==> forall i :: 0 <= i < |users| ==> users[i].id != id
  {
    FindByPk(users, UserKey, id)
  }

  /** `Video.findByPk(id)`. */
  function FindVideo(videos: seq<Video>, id: Id): (r: Option<Video>)
    ensures r.Some? ==> r.value in videos && r.value.id == id
    ensures r.None? <==> forall i :: 0 <= i < |videos| ==> videos[i].id != id
  {
    FindByPk(videos, VideoKey, id)
  }

  /** `FindByPkAppend` for the video table. */
  lemma FindVideoAppend(videos: seq<Video>, x: Video, id: Id)
    ensures FindVideo(videos + [x], id) ==
              if FindVideo(videos, id).Some? then FindVideo(videos, id)
              else if x.id == id then Some(x)
              else None
  {
    FindByPkAppend(videos, VideoKey, x, id);
  }

  /** The 404 a video handler forwards when `Video.findByPk` finds nothing. */
  function VideoNotFound(id: Id): HttpError
  {
    HttpError(NotFound, "No video found for ID - " + id)
  }

  /* Key columns, projected in table order. */

  function VideoIds(videos: seq<Video>): seq<Id>
  {
    seq(|videos|, i requires 0 <= i < |videos| => videos[i].id)
  }

  function UserIds(users: seq<User>): seq<Id>
  {
    seq(|users|, i requires 0 <= i < |users| => users[i].id)
  }

  /** `Video.userId`: the owning channel of each video. */
  function OwnerIds(videos: seq<Video>): seq<Id>
  {
    seq(|videos|, i requires 0 <= i < |videos| => videos[i].userId)
  }

  /** `Subscription.subscribeTo`: the channel of each subscription. */
  function ChannelIds(subscriptions: seq<Subscription>): seq<Id>
  {
    seq(|subscriptions|, i requires 0 <= i < |subscriptions| => subscriptions[i].subscribeTo)
  }

  /** `View.videoId`: the video of each view. */
  function ViewedVideoIds(views: seq<View>): seq<Id>
  {
    seq(|views|, i requires 0 <= i < |views| => views[i].videoId)
  }

  /** `(VideoLike.videoId, VideoLike.like)` of each reaction. */
  function ReactionKeys(likes: seq<VideoLike>): seq<(Id, Reaction)>
  {
    seq(|likes|, i requires 0 <= i < |likes| => (likes[i].videoId, likes[i].like))
  }

  /* Per-row counts, `Model.count({ where: { column: key } })`: the number of
     rows whose key column holds the key. */

  function ViewCount(views: seq<View>, videoId: Id): nat
  {
    multiset(ViewedVideoIds(views))[videoId]
  }

  function SubscriberCount(subscriptions: seq<Subscription>, channel: Id): nat
  {
    multiset(ChannelIds(subscriptions))[channel]
  }

  function UploadCount(videos: seq<Video>, owner: Id): nat
  {
    multiset(OwnerIds(videos))[owner]
  }

  function ReactionCount(likes: seq<VideoLike>, videoId: Id, r: Reaction): nat
  {
    multiset(ReactionKeys(likes))[(videoId, r)]
  }
}
