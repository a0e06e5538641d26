/** Properties that relate one handler's write to what another handler then
    reads: the scenarios the API is meant to support. */
module Scenarios {
  import opened Outcomes
  import opened Schema
  import opened Seqs
  import opened Aggregate
  import opened Subscriptions
  import opened Reactions
  import opened VideoHandlers
  import opened UserQueries

  /** After a toggle, the target's videos are in the caller's feed exactly
      when the toggle subscribed: subscribing shows them, unsubscribing hides
      them. */
  lemma FeedFollowsToggle(db: Db, me: Id, target: Id)
    requires ToggleSubscribe(db, me, target).Ok?
    ensures var feed := VideosOf(GetFeed(ToggleSubscribe(db, me, target).value, me));
            forall v :: v in db.videos && v.userId == target ==>
              (v in feed <==> Subscription(me, target) !in db.subscriptions)
  {
  }

  /** An uploaded video under a fresh id is found by `getVideo`: it is the
      caller's own, and its counters are those of the tables as they stood,
      so with no rows yet pointing at it they read zero. */
  lemma NewVideoThenGetVideo(db: Db, me: Id, id: Id, title: string, description: string, now: int)
    requires FindVideo(db.videos, id).None?
    ensures NewVideo(db, me, id, title, description, now).Some?
    ensures var uploaded := NewVideo(db, me, id, title, description, now).value;
            var detail := GetVideo(uploaded.1, me, id);
            && detail.Ok?
            && detail.value.video == uploaded.0
            && detail.value.isVideoMine
            && detail.value.views == ViewCount(db.views, id)
            && detail.value.likesCount == ReactionCount(db.likes, id, Liked)
            && detail.value.subscribersCount == SubscriberCount(db.subscriptions, me)
  {
  }

  /** A like followed by `getVideo`: `isLiked` reports the new state and
      `likesCount` moves by one. */
  lemma LikeThenGetVideo(db: Db, me: Id, vid: Id)
    requires OneReactionPerPair(db.likes)
    requires LikeVideo(db, me, vid).Ok?
    ensures var before := GetVideo(db, me, vid);
            var after := GetVideo(LikeVideo(db, me, vid).value, me, vid);
            && before.Ok? && after.Ok?
            && (after.value.isLiked <==> ReactionOf(db.likes, me, vid) != Some(Liked))
            && !after.value.isDisliked
            && after.value.likesCount ==
                 if ReactionOf(db.likes, me, vid) == Some(Liked) then before.value.likesCount - 1
                 else before.value.likesCount + 1
  {
    var db1 := LikeVideo(db, me, vid).value;
    ReactCounts(db.likes, me, vid, Liked);
    GetVideoReactionFlags(db1, me, vid);
  }

  /** A recorded view shows up in `getVideo`: `isViewed` holds and `views`
      grows by one. */
  lemma ViewThenGetVideo(db: Db, me: Id, vid: Id)
    requires NewView(db, me, vid).Ok?
    ensures var before := GetVideo(db, me, vid);
            var after := GetVideo(NewView(db, me, vid).value, me, vid);
            && before.Ok? && after.Ok?
            && !before.value.isViewed && after.value.isViewed
            && after.value.views == before.value.views + 1
  {
  }

  /** A posted comment shows up in `getVideo`, and `commentsCount` grows by one. */
  lemma CommentThenGetVideo(db: Db, me: Id, vid: Id, text: string, now: int)
    requires AddComment(db, me, vid, text, now).Ok?
    ensures var posted := AddComment(db, me, vid, text, now).value;
            var before := GetVideo(db, me, vid);
            var after := GetVideo(posted.1, me, vid);
            && before.Ok? && after.Ok?
            && posted.0 in after.value.comments
            && after.value.commentsCount == before.value.commentsCount + 1
  {
    var posted := AddComment(db, me, vid, text, now).value;
    FilterAppend(db.comments, posted.0, (c: Comment) => c.videoId == vid);
  }
}
