/** The video handlers of src/controllers/video.js other than the reactions:
    `newVideo`, `getVideo`, `addComment`, `newView` and the live `searchVideo`. */
module VideoHandlers {
  import opened Outcomes
  import opened Schema
  import opened Seqs
  import opened Text
  import opened Ordering
  import opened Aggregate
  import opened Reactions

  const AlreadyViewedMessage: string := "You already viewed this video"
  const MissingVideoSearchTermMessage: string := "Please enter the searchterm"

  /** `newVideo`: the request body's fields with `userId` forced to the caller.
      The primary key and `createdAt` come from the body or, when it omits
      them, from the database and the clock, so they are parameters here. An
      `id` that is already taken violates the primary key: `Video.create`
      rejects and the error goes to `next`; that failure is `None`, and
      nothing is written. */
  function NewVideo(db: Db, me: Id, id: Id, title: string, description: string, now: int): (r: Option<(Video, Db)>)
    ensures r.None? <==> FindVideo(db.videos, id).Some?
    ensures r.Some? ==> r.value.0.id == id && r.value.0.userId == me
    ensures r.Some? ==> r.value.1.(videos := db.videos) == db
    ensures r.Some? ==> multiset(r.value.1.videos) == multiset(db.videos) + multiset{r.value.0}
    ensures r.Some? ==> UploadCount(r.value.1.videos, me) == UploadCount(db.videos, me) + 1
    ensures r.Some? ==> forall u :: u != me ==> UploadCount(r.value.1.videos, u) == UploadCount(db.videos, u)
    ensures r.Some? ==> FindVideo(r.value.1.videos, id) == Some(r.value.0)
    ensures r.Some? ==> forall k :: FindVideo(db.videos, k).Some? ==>
              FindVideo(r.value.1.videos, k) == FindVideo(db.videos, k)
  {
    if FindVideo(db.videos, id).Some? then None
    else
      var video := Video(id, me, title, description, now);
      var videos := db.videos + [video];
      assert OwnerIds(videos) == OwnerIds(db.videos) + [me];
      assert forall k :: FindVideo(videos, k) ==
               if FindVideo(db.videos, k).Some? then FindVideo(db.videos, k)
               else if id == k then Some(video) else None by {
        forall k
          ensures FindVideo(videos, k) ==
                    if FindVideo(db.videos, k).Some? then FindVideo(db.videos, k)
                    else if id == k then Some(video) else None
        {
          FindVideoAppend(db.videos, video, k);
        }
      }
      Some((video, db.(videos := videos)))
  }

  /** The response of `getVideo`: the row plus the attached fields. */
  datatype VideoDetail = VideoDetail(
    video: Video,
    comments: seq<Comment>,
    commentsCount: nat,
    isLiked: bool,
    isDisliked: bool,
    likesCount: nat,
    dislikesCount: nat,
    views: nat,
    isVideoMine: bool,
    isSubscribed: bool,
    isViewed: bool,
    subscribersCount: nat)

  /** The comment rows of a video, in table order. */
  function CommentsOf(comments: seq<Comment>, vid: Id): (r: seq<Comment>)
    ensures forall c :: c in r <==> c in comments && c.videoId == vid
    ensures forall c :: multiset(r)[c] == if c.videoId == vid then multiset(comments)[c] else 0
  {
    var r := Filter(comments, (c: Comment) => c.videoId == vid);
    assert forall c :: multiset(r)[c] == if c.videoId == vid then multiset(comments)[c] else 0 by {
      forall c
        ensures multiset(r)[c] == if c.videoId == vid then multiset(comments)[c] else 0
      {
        FilterMultiset(comments, (c: Comment) => c.videoId == vid, c);
      }
    }
    r
  }

  /** `getVideo` for caller `me` and video `vid`. */
  function GetVideo(db: Db, me: Id, vid: Id): (r: Result<VideoDetail>)
    ensures r.Err? <==> FindVideo(db.videos, vid).None?
    ensures r.Err? ==> r.error == VideoNotFound(vid)
    ensures r.Ok? ==> r.value.video in db.videos && r.value.video.id == vid
    ensures r.Ok? ==> forall c :: c in r.value.comments <==> c in db.comments && c.videoId == vid
    ensures r.Ok? ==> forall c ::
              multiset(r.value.comments)[c] == (if c.videoId == vid then multiset(db.comments)[c] else 0)
    ensures r.Ok? ==> forall i, j :: 0 <= i < j < |r.value.comments| ==>
              r.value.comments[i].createdAt >= r.value.comments[j].createdAt
    ensures r.Ok? ==> r.value.commentsCount == |r.value.comments|
    ensures r.Ok? ==> (r.value.isLiked <==> VideoLike(me, vid, Liked) in db.likes)
    ensures r.Ok? ==> (r.value.isDisliked <==> VideoLike(me, vid, Disliked) in db.likes)
    ensures r.Ok? ==> r.value.likesCount == ReactionCount(db.likes, vid, Liked)
    ensures r.Ok? ==> r.value.dislikesCount == ReactionCount(db.likes, vid, Disliked)
    ensures r.Ok? ==> r.value.views == ViewCount(db.views, vid)
    ensures r.Ok? ==> (r.value.isVideoMine <==> me == r.value.video.userId)
    ensures r.Ok? ==> (r.value.isSubscribed <==> Subscription(me, r.value.video.userId) in db.subscriptions)
    ensures r.Ok? ==> (r.value.isViewed <==> View(me, vid) in db.views)
    ensures r.Ok? ==> r.value.subscribersCount == SubscriberCount(db.subscriptions, r.value.video.userId)
  {
    match FindVideo(db.videos, vid)
    case None => Err(VideoNotFound(vid))
    case Some(video) =>
      var comments := SortNewestFirst(CommentsOf(db.comments, vid), (c: Comment) => c.createdAt);
      assert forall c :: c in comments <==> c in multiset(comments);
      Ok(VideoDetail(
        video,
        comments,
        |CommentsOf(db.comments, vid)|,
        VideoLike(me, vid, Liked) in db.likes,
        VideoLike(me, vid, Disliked) in db.likes,
        ReactionCount(db.likes, vid, Liked),
        ReactionCount(db.likes, vid, Disliked),
        ViewCount(db.views, vid),
        me == video.userId,
        Subscription(me, video.userId) in db.subscriptions,
        View(me, video.id) in db.views,
        SubscriberCount(db.subscriptions, video.userId)))
  }

  /** Under the one-row invariant `isLiked` and `isDisliked` report the
      pair's state, so they are never both true. */
  lemma GetVideoReactionFlags(db: Db, me: Id, vid: Id)
    requires OneReactionPerPair(db.likes)
    requires FindVideo(db.videos, vid).Some?
    ensures var d := GetVideo(db, me, vid).value;
            && !(d.isLiked && d.isDisliked)
            && (d.isLiked <==> ReactionOf(db.likes, me, vid) == Some(Liked))
            && (d.isDisliked <==> ReactionOf(db.likes, me, vid) == Some(Disliked))
  {
    PairRows(db.likes, me, vid, Liked);
    PairRows(db.likes, me, vid, Disliked);
    assert VideoLike(me, vid, Liked) in db.likes <==> VideoLike(me, vid, Liked) in multiset(db.likes);
    assert VideoLike(me, vid, Disliked) in db.likes <==> VideoLike(me, vid, Disliked) in multiset(db.likes);
  }

  /** `addComment`: 404 for an unknown video, otherwise one comment row by
      the caller, on that video, with the given text, stamped `now`. */
  function AddComment(db: Db, me: Id, vid: Id, text: string, now: int): (r: Result<(Comment, Db)>)
    ensures r.Err? <==> FindVideo(db.videos, vid).None?
    ensures r.Err? ==> r.error == VideoNotFound(vid)
    ensures r.Ok? ==> r.value.0 == Comment(me, vid, text, now)
    ensures r.Ok? ==> r.value.1.(comments := db.comments) == db
    ensures r.Ok? ==> r.value.1.comments == db.comments + [r.value.0]
  {
    if FindVideo(db.videos, vid).None? then Err(VideoNotFound(vid))
    else
      var comment := Comment(me, vid, text, now);
      Ok((comment, db.(comments := db.comments + [comment])))
  }

  /** `newView`: 404 for an unknown video, 400 when the caller already has a
      view row for it, otherwise exactly one new row. */
  function NewView(db: Db, me: Id, vid: Id): (r: Result<Db>)
    ensures r.Err? && r.error.statusCode == NotFound <==> FindVideo(db.videos, vid).None?
    ensures r.Err? && r.error.statusCode == BadRequest <==>
              FindVideo(db.videos, vid).Some? && View(me, vid) in db.views
    ensures r.Err? ==> r.error == VideoNotFound(vid) || r.error == HttpError(BadRequest, AlreadyViewedMessage)
    ensures r.Ok? ==> r.value.(views := db.views) == db
    ensures r.Ok? ==> |r.value.views| == |db.views| + 1 && r.value.views[..|db.views|] == db.views
    ensures r.Ok? ==> View(me, vid) !in db.views && View(me, vid) in r.value.views
    ensures r.Ok? ==> ViewCount(r.value.views, vid) == ViewCount(db.views, vid) + 1
    ensures r.Ok? ==> forall w :: w != vid ==> ViewCount(r.value.views, w) == ViewCount(db.views, w)
    ensures r.Ok? && Distinct(db.views) ==> Distinct(r.value.views)
  {
    if FindVideo(db.videos, vid).None? then Err(VideoNotFound(vid))
    else if View(me, vid) in db.views then Err(HttpError(BadRequest, AlreadyViewedMessage))
    else
      var views := db.views + [View(me, vid)];
      assert ViewedVideoIds(views) == ViewedVideoIds(db.views) + [vid];
      assert Distinct(db.views) ==> Distinct(views) by {
        if Distinct(db.views) {
          AppendDistinct(db.views, View(me, vid));
        }
      }
      Ok(db.(views := views))
  }

  /** Recording the same view twice: the second attempt is rejected with the
      400 conflict, so the pair keeps a single row. */
  lemma NewViewTwice(db: Db, me: Id, vid: Id)
    requires NewView(db, me, vid).Ok?
    ensures NewView(NewView(db, me, vid).value, me, vid) == Err(HttpError(BadRequest, AlreadyViewedMessage))
  {
    var db1 := NewView(db, me, vid).value;
    assert db1.videos == db.videos;
  }

  /** The videos whose title or description contains `term`, in table order. */
  function MatchingVideos(videos: seq<Video>, term: string): (r: seq<Video>)
    ensures forall v :: v in r <==> v in videos && (Contains(v.title, term) || Contains(v.description, term))
  {
    Filter(videos, (v: Video) => Contains(v.title, term) || Contains(v.description, term))
  }

  /** The live `searchVideo`: 400 without a search term; otherwise the
      matching videos, each with its own `View.count`. */
  function SearchVideo(db: Db, term: Option<string>): (r: Result<seq<VideoWithViews>>)
    ensures r.Err? <==> !IsPresent(term)
    ensures r.Err? ==> r.error == HttpError(BadRequest, MissingVideoSearchTermMessage)
    ensures r.Ok? ==> VideosOf(r.value) == MatchingVideos(db.videos, term.value)
    ensures r.Ok? ==> forall v :: v in VideosOf(r.value) <==>
              v in db.videos && (Contains(v.title, term.value) || Contains(v.description, term.value))
    ensures r.Ok? ==> forall i :: 0 <= i < |r.value| ==> r.value[i].views == ViewCount(db.views, r.value[i].video.id)
  {
    if !IsPresent(term) then Err(HttpError(BadRequest, MissingVideoSearchTermMessage))
    else
      var videos := MatchingVideos(db.videos, term.value);
      var r := seq(|videos|, i requires 0 <= i < |videos| => VideoWithViews(videos[i], ViewCount(db.views, videos[i].id)));
      assert VideosOf(r) == videos;
      Ok(r)
  }

  /** Counting per row, as `searchVideo` does, and the batched grouped count
      of the other listings give the same enrichment. */
  lemma SearchVideoMatchesBatchCount(db: Db, term: Option<string>)
    requires IsPresent(term)
    ensures SearchVideo(db, term).value == WithViews(MatchingVideos(db.videos, term.value), db.views)
  {
    var a := SearchVideo(db, term).value;
    var b := WithViews(MatchingVideos(db.videos, term.value), db.views);
    assert VideosOf(a) == VideosOf(b);
    assert |a| == |VideosOf(a)| && |b| == |VideosOf(b)|;
    forall i | 0 <= i < |a|
      ensures a[i] == b[i]
    {
      assert a[i].video == VideosOf(a)[i] && b[i].video == VideosOf(b)[i];
    }
  }
}
