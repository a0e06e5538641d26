/** The read handlers of src/controllers/user.js and `editUser`: feeds,
    search, profile and recommendations, each a filter over the tables
    followed by the batch count-and-merge of `Aggregate`. */
module UserQueries {
  import opened Outcomes
  import opened Schema
  import opened Seqs
  import opened Text
  import opened Ordering
  import opened Aggregate
  import opened Reactions

  const MissingUserSearchTermMessage: string := "Please enter your search term"
  const RecommendedChannelsLimit: nat := 10

  /** `subscribedTo.map(sub => sub.subscribeTo)` for the caller's rows. */
  function SubscribedChannels(subscriptions: seq<Subscription>, me: Id): (r: seq<Id>)
    ensures forall c :: c in r <==> Subscription(me, c) in subscriptions
  {
    var mine := Filter(subscriptions, (s: Subscription) => s.subscriber == me);
    var r := ChannelIds(mine);
    assert forall c :: c in r <==> Subscription(me, c) in subscriptions by {
      forall c
        ensures c in r <==> Subscription(me, c) in subscriptions
      {
        if c in r {
          var i :| 0 <= i < |r| && r[i] == c;
          assert mine[i] in mine;
        }
        if Subscription(me, c) in subscriptions {
          var i :| 0 <= i < |mine| && mine[i] == Subscription(me, c);
          assert r[i] == c;
        }
      }
    }
    r
  }

  /** The videos of the channels the caller follows, in table order. */
  function FeedVideos(db: Db, me: Id): (r: seq<Video>)
    ensures forall v :: v in r <==> v in db.videos && Subscription(me, v.userId) in db.subscriptions
  {
    var channels := SubscribedChannels(db.subscriptions, me);
    Filter(db.videos, (v: Video) => v.userId in channels)
  }

  /** `getFeed`: the followed channels' videos, newest first, each with its
      view count. No subscriptions, or no videos, gives an empty list. */
  function GetFeed(db: Db, me: Id): (r: seq<VideoWithViews>)
    ensures multiset(VideosOf(r)) == multiset(FeedVideos(db, me))
    ensures forall v :: v in VideosOf(r) <==> v in db.videos && Subscription(me, v.userId) in db.subscriptions
    ensures forall i, j :: 0 <= i < j < |r| ==> r[i].video.createdAt >= r[j].video.createdAt
    ensures forall i :: 0 <= i < |r| ==> r[i].views == ViewCount(db.views, r[i].video.id)
  {
    var feed := SortNewestFirst(FeedVideos(db, me), (v: Video) => v.createdAt);
    SameMembers(feed, FeedVideos(db, me));
    if |feed| == 0 then [] else WithViews(feed, db.views)
  }

  /** `recommendedVideos`: every video, newest first, each with its view count. */
  function RecommendedVideos(db: Db): (r: seq<VideoWithViews>)
    ensures multiset(VideosOf(r)) == multiset(db.videos)
    ensures forall i, j :: 0 <= i < j < |r| ==> r[i].video.createdAt >= r[j].video.createdAt
    ensures forall i :: 0 <= i < |r| ==> r[i].views == ViewCount(db.views, r[i].video.id)
  {
    var videos := SortNewestFirst(db.videos, (v: Video) => v.createdAt);
    if |videos| == 0 then [] else WithViews(videos, db.views)
  }

  /** The profile fields a request body may carry; a missing field keeps the
      stored value. */
  datatype ProfilePatch = ProfilePatch(
    username: Option<string>,
    channelDescription: Option<string>,
    avatar: Option<string>)

  function Patched(stored: string, field: Option<string>): string
  {
    if field.Some? then field.value else stored
  }

  /** One user row after `User.update(patch)`: the id is kept, each field
      present in the patch takes the patch's value and each absent field
      keeps the stored one; an empty body leaves the row as it was. */
  function ApplyPatch(user: User, patch: ProfilePatch): (r: User)
    ensures r.id == user.id
    ensures patch.username.Some? ==> r.username == patch.username.value
    ensures patch.username.None? ==> r.username == user.username
    ensures patch.channelDescription.Some? ==> r.channelDescription == patch.channelDescription.value
    ensures patch.channelDescription.None? ==> r.channelDescription == user.channelDescription
    ensures patch.avatar.Some? ==> r.avatar == patch.avatar.value
    ensures patch.avatar.None? ==> r.avatar == user.avatar
    ensures patch == ProfilePatch(None, None, None) ==> r == user
  {
    User(
      user.id,
      Patched(user.username, patch.username),
      Patched(user.channelDescription, patch.channelDescription),
      Patched(user.avatar, patch.avatar))
  }

  /** `editUser`: update the caller's row, then read it back (null when the
      caller has no row). Only the caller's row changes. */
  function EditUser(db: Db, me: Id, patch: ProfilePatch): (r: (Option<User>, Db))
    ensures r.1.(users := db.users) == db
    ensures |r.1.users| == |db.users|
    ensures forall i :: 0 <= i < |db.users| && db.users[i].id != me ==> r.1.users[i] == db.users[i]
    ensures forall i :: 0 <= i < |db.users| && db.users[i].id == me ==>
              r.1.users[i] == ApplyPatch(db.users[i], patch)
    ensures r.0.Some? <==> exists i :: 0 <= i < |db.users| && db.users[i].id == me
    ensures r.0.Some? ==> r.0.value.id == me && r.0.value in r.1.users
  {
    var users := seq(|db.users|, i requires 0 <= i < |db.users| =>
                   if db.users[i].id == me then ApplyPatch(db.users[i], patch) else db.users[i]);
    var found := FindUser(users, me);
    assert found.None? ==> forall i :: 0 <= i < |db.users| ==> db.users[i].id != me by {
      if found.None? {
        forall i | 0 <= i < |db.users|
          ensures db.users[i].id != me
        {
          assert users[i].id == db.users[i].id;
        }
      }
    }
    (found, db.(users := users))
  }

  /** Sending the same body twice stores the same row as sending it once. */
  lemma ApplyPatchIdempotent(user: User, patch: ProfilePatch)
    ensures ApplyPatch(ApplyPatch(user, patch), patch) == ApplyPatch(user, patch)
  {
  }

  /** Repeating an `editUser` request changes nothing more: the database and
      the user read back are those of the first request. */
  lemma EditUserIdempotent(db: Db, me: Id, patch: ProfilePatch)
    ensures var once := EditUser(db, me, patch);
            EditUser(once.1, me, patch) == once
  {
    var once := EditUser(db, me, patch);
    var twice := EditUser(once.1, me, patch);
    forall i | 0 <= i < |db.users|
      ensures twice.1.users[i] == once.1.users[i]
    {
      if db.users[i].id == me {
        ApplyPatchIdempotent(db.users[i], patch);
      }
    }
    assert twice.1.users == once.1.users;
    assert twice.1 == once.1;
  }

  /** A channel in a listing, with its aggregates and the caller's flag. */
  datatype ChannelCard = ChannelCard(user: User, subscribersCount: nat, videosCount: nat, isSubscribed: bool)

  /** `card` carries the true aggregates of its user as seen by `me`. */
  ghost predicate Describes(db: Db, me: Id, card: ChannelCard)
  {
    && card.subscribersCount == SubscriberCount(db.subscriptions, card.user.id)
    && card.videosCount == UploadCount(db.videos, card.user.id)
    && (card.isSubscribed <==> Subscription(me, card.user.id) in db.subscriptions)
  }

  /** The channel enrichment shared by `searchUser` and `recommendChannels`:
      two grouped counts and one prefetched flag list for the whole batch. */
  function ChannelCards(db: Db, me: Id, batch: seq<User>): (r: seq<ChannelCard>)
    ensures |r| == |batch|
    ensures forall i :: 0 <= i < |r| ==> r[i].user == batch[i] && Describes(db, me, r[i])
  {
    var ids := UserIds(batch);
    var subscribers := BatchCounts(ChannelIds(db.subscriptions), ids);
    var uploads := BatchCounts(OwnerIds(db.videos), ids);
    var flags := SubscribedFlags(db.subscriptions, me, ids);
    seq(|batch|, i requires 0 <= i < |batch| => ChannelCard(batch[i], subscribers[i], uploads[i], flags[i]))
  }

  /** The users whose username contains `term`, in table order. */
  function UsersMatching(users: seq<User>, term: string): (r: seq<User>)
    ensures forall u :: u in r <==> u in users && Contains(u.username, term)
  {
    Filter(users, (u: User) => Contains(u.username, term))
  }

  /** A `searchUser` result: a channel card plus `isMe`. */
  datatype UserHit = UserHit(card: ChannelCard, isMe: bool)

  function HitUsers(hits: seq<UserHit>): seq<User>
  {
    seq(|hits|, i requires 0 <= i < |hits| => hits[i].card.user)
  }

  /** Marks each card with whether it is the caller's own channel. */
  function MarkMe(cards: seq<ChannelCard>, me: Id): (r: seq<UserHit>)
    ensures |r| == |cards|
    ensures forall i :: 0 <= i < |r| ==> r[i].card == cards[i] && (r[i].isMe <==> cards[i].user.id == me)
  {
    seq(|cards|, i requires 0 <= i < |cards| => UserHit(cards[i], me == cards[i].user.id))
  }

  /** `searchUser`: 400 without a search term; otherwise every user whose
      username contains it, in table order, enriched. */
  function SearchUser(db: Db, me: Id, term: Option<string>): (r: Result<seq<UserHit>>)
    ensures r.Err? <==> !IsPresent(term)
    ensures r.Err? ==> r.error == HttpError(BadRequest, MissingUserSearchTermMessage)
    ensures r.Ok? ==> HitUsers(r.value) == UsersMatching(db.users, term.value)
    ensures r.Ok? ==> forall i :: 0 <= i < |r.value| ==>
              Describes(db, me, r.value[i].card) && (r.value[i].isMe <==> r.value[i].card.user.id == me)
  {
    if !IsPresent(term) then Err(HttpError(BadRequest, MissingUserSearchTermMessage))
    else
      var users := UsersMatching(db.users, term.value);
      if |users| == 0 then Ok([])
      else
        var hits := MarkMe(ChannelCards(db, me, users), me);
        assert HitUsers(hits) == users;
        Ok(hits)
  }

  /** The users other than the caller, in table order. */
  function OtherUsers(users: seq<User>, me: Id): (r: seq<User>)
    ensures forall u :: u in r <==> u in users && u.id != me
  {
    Filter(users, (u: User) => u.id != me)
  }

  /** `recommendChannels`: the first ten users other than the caller
      (`limit: 10`, no order), enriched. */
  function RecommendChannels(db: Db, me: Id): (r: seq<ChannelCard>)
    ensures |r| <= RecommendedChannelsLimit
    ensures |r| == if |OtherUsers(db.users, me)| < RecommendedChannelsLimit
                   then |OtherUsers(db.users, me)| else RecommendedChannelsLimit
    ensures forall i :: 0 <= i < |r| ==> r[i].user == OtherUsers(db.users, me)[i]
    ensures forall i :: 0 <= i < |r| ==> r[i].user in db.users && r[i].user.id != me && Describes(db, me, r[i])
  {
    var channels := Prefix(OtherUsers(db.users, me), RecommendedChannelsLimit);
    assert forall i :: 0 <= i < |channels| ==> channels[i] in db.users && channels[i].id != me by {
      forall i | 0 <= i < |channels|
        ensures channels[i] in db.users && channels[i].id != me
      {
        assert channels[i] in channels;
      }
    }
    if |channels| == 0 then [] else ChannelCards(db, me, channels)
  }

  /** A followed channel in a profile, with its subscriber count. */
  datatype ChannelSummary = ChannelSummary(user: User, subscribersCount: nat)

  /** The response of `getProfile`. `videos` is absent when the user has
      uploaded nothing: the handler responds before attaching the field. */
  datatype Profile = Profile(
    user: User,
    subscribersCount: nat,
    isMe: bool,
    isSubscribed: bool,
    channels: seq<ChannelSummary>,
    videos: Option<seq<VideoWithViews>>)

  /** The users `id` follows, in table order. */
  function FollowedChannels(db: Db, id: Id): (r: seq<User>)
    ensures forall u :: u in r <==> u in db.users && Subscription(id, u.id) in db.subscriptions
  {
    var channelIds := SubscribedChannels(db.subscriptions, id);
    Filter(db.users, (u: User) => u.id in channelIds)
  }

  /** The videos uploaded by `id`, in table order. */
  function UploadsOf(videos: seq<Video>, id: Id): (r: seq<Video>)
    ensures forall v :: v in r <==> v in videos && v.userId == id
  {
    Filter(videos, (v: Video) => v.userId == id)
  }

  function ProfileNotFound(id: Id): HttpError
  {
    HttpError(NotFound, "No user found for ID - " + id)
  }

  /** `getProfile` of user `id` as seen by `me`. */
  function GetProfile(db: Db, me: Id, id: Id): (r: Result<Profile>)
    ensures r.Err? <==> FindUser(db.users, id).None?
    ensures r.Err? ==> r.error == ProfileNotFound(id)
    ensures r.Ok? ==> r.value.user in db.users && r.value.user.id == id
    ensures r.Ok? ==> r.value.subscribersCount == SubscriberCount(db.subscriptions, id)
    ensures r.Ok? ==> (r.value.isMe <==> me == id)
    ensures r.Ok? ==> (r.value.isSubscribed <==> Subscription(me, id) in db.subscriptions)
    ensures r.Ok? ==> |r.value.channels| == |FollowedChannels(db, id)|
    ensures r.Ok? ==> forall i :: 0 <= i < |r.value.channels| ==>
              && r.value.channels[i].user == FollowedChannels(db, id)[i]
              && r.value.channels[i].subscribersCount == SubscriberCount(db.subscriptions, r.value.channels[i].user.id)
    ensures r.Ok? ==> (r.value.videos.None? <==> forall v :: v in db.videos ==> v.userId != id)
    ensures r.Ok? && r.value.videos.Some? ==>
              && VideosOf(r.value.videos.value) == UploadsOf(db.videos, id)
              && forall i :: 0 <= i < |r.value.videos.value| ==>
                   r.value.videos.value[i].views == ViewCount(db.views, r.value.videos.value[i].video.id)
  {
    match FindUser(db.users, id)
    case None => Err(ProfileNotFound(id))
    case Some(user) =>
      var followed := FollowedChannels(db, id);
      var counts := BatchCounts(ChannelIds(db.subscriptions), UserIds(followed));
      var channels := seq(|followed|, i requires 0 <= i < |followed| => ChannelSummary(followed[i], counts[i]));
      var uploads := UploadsOf(db.videos, id);
      var videos := if |uploads| == 0 then None else Some(WithViews(uploads, db.views));
      Ok(Profile(
        user,
        SubscriberCount(db.subscriptions, id),
        me == id,
        Subscription(me, id) in db.subscriptions,
        channels,
        videos))
  }

  /** The relation table `getVideos` reads: `VideoLike` for
      `getLikedVideos`, `View` for `getHistory`. */
  datatype VideoRelation = LikedVideos | History

  /** `VideoLike.videoId` of each reaction row. */
  function ReactedVideoIds(likes: seq<VideoLike>): seq<Id>
  {
    seq(|likes|, i requires 0 <= i < |likes| => likes[i].videoId)
  }

  /** The caller's relation rows, mapped to their video ids, as the handler
      reads them: `model.findAll({ where: { userId } })`. For `VideoLike`
      this takes the caller's dislikes (like = -1) along with the likes. */
  function RelatedVideoIdsAsWritten(db: Db, me: Id, relation: VideoRelation): seq<Id>
  {
    match relation
    case LikedVideos => ReactedVideoIds(Filter(db.likes, (l: VideoLike) => l.userId == me))
    case History => ViewedVideoIds(Filter(db.views, (w: View) => w.userId == me))
  }

  /** The intended relation rows: for liked videos only the rows with
      like = 1. */
  function RelatedVideoIds(db: Db, me: Id, relation: VideoRelation): seq<Id>
  {
    match relation
    case LikedVideos => ReactedVideoIds(Filter(db.likes, (l: VideoLike) => l.userId == me && l.like == Liked))
    case History => ViewedVideoIds(Filter(db.views, (w: View) => w.userId == me))
  }

  /** `Video.findAll({ where: { id: { [Op.in]: ids } } })` with view counts:
      table order (the relation rows' `createdAt ASC` order is not kept). */
  function VideosWithIds(db: Db, ids: seq<Id>): (r: seq<VideoWithViews>)
    ensures forall v :: v in VideosOf(r) <==> v in db.videos && v.id in ids
    ensures forall v :: multiset(VideosOf(r))[v] == if v.id in ids then multiset(db.videos)[v] else 0
    ensures forall i :: 0 <= i < |r| ==> r[i].views == ViewCount(db.views, r[i].video.id)
  {
    var videos := Filter(db.videos, (v: Video) => v.id in ids);
    assert forall v :: multiset(videos)[v] == if v.id in ids then multiset(db.videos)[v] else 0 by {
      forall v
        ensures multiset(videos)[v] == if v.id in ids then multiset(db.videos)[v] else 0
      {
        FilterMultiset(db.videos, (v: Video) => v.id in ids, v);
      }
    }
    if |videos| == 0 then [] else WithViews(videos, db.views)
  }

  /** The caller has a row of `relation` for video `vid`, with like = 1 for
      liked videos. */
  predicate Related(db: Db, me: Id, relation: VideoRelation, vid: Id)
  {
    match relation
    case LikedVideos => VideoLike(me, vid, Liked) in db.likes
    case History => View(me, vid) in db.views
  }

  /** The as-written counterpart of `Related`: for liked videos, any
      reaction row of the caller counts. */
  predicate RelatedAsWritten(db: Db, me: Id, relation: VideoRelation, vid: Id)
  {
    match relation
    case LikedVideos => VideoLike(me, vid, Liked) in db.likes || VideoLike(me, vid, Disliked) in db.likes
    case History => View(me, vid) in db.views
  }

  /** `getVideos` as written: liked videos are those with any reaction row
      of the caller, like or dislike. */
  function GetVideosAsWritten(db: Db, me: Id, relation: VideoRelation): (r: seq<VideoWithViews>)
    ensures forall v :: v in VideosOf(r) <==> v in db.videos && RelatedAsWritten(db, me, relation, v.id)
    ensures forall v :: multiset(VideosOf(r))[v] ==
              if RelatedAsWritten(db, me, relation, v.id) then multiset(db.videos)[v] else 0
    ensures forall i :: 0 <= i < |r| ==> r[i].views == ViewCount(db.views, r[i].video.id)
  {
    var ids := RelatedVideoIdsAsWritten(db, me, relation);
    var mine := Filter(db.likes, (l: VideoLike) => l.userId == me);
    var watched := Filter(db.views, (w: View) => w.userId == me);
    assert forall vid :: vid in ids <==> RelatedAsWritten(db, me, relation, vid) by {
      forall vid
        ensures vid in ids <==> RelatedAsWritten(db, me, relation, vid)
      {
        if relation == LikedVideos {
          if vid in ids {
            var i :| 0 <= i < |ids| && ids[i] == vid;
            assert ids == ReactedVideoIds(mine);
            assert mine[i] in mine;
            assert mine[i] == VideoLike(me, vid, mine[i].like);
            if mine[i].like == Liked {
              assert VideoLike(me, vid, Liked) in db.likes;
            } else {
              assert VideoLike(me, vid, Disliked) in db.likes;
            }
          }
          if VideoLike(me, vid, Liked) in db.likes {
            var i :| 0 <= i < |mine| && mine[i] == VideoLike(me, vid, Liked);
            assert ids[i] == vid;
          }
          if VideoLike(me, vid, Disliked) in db.likes {
            var i :| 0 <= i < |mine| && mine[i] == VideoLike(me, vid, Disliked);
            assert ids[i] == vid;
          }
        } else {
          if vid in ids {
            var i :| 0 <= i < |ids| && ids[i] == vid;
            assert watched[i] in watched;
            assert watched[i] == View(me, vid);
          }
          if View(me, vid) in db.views {
            var i :| 0 <= i < |watched| && watched[i] == View(me, vid);
            assert ids[i] == vid;
          }
        }
      }
    }
    VideosWithIds(db, ids)
  }

  /** `getVideos` as intended: exactly the videos the caller liked (for
      `getLikedVideos`) or viewed (for `getHistory`), each with its view count. */
  function GetVideos(db: Db, me: Id, relation: VideoRelation): (r: seq<VideoWithViews>)
    ensures forall v :: v in VideosOf(r) <==> v in db.videos && Related(db, me, relation, v.id)
    ensures forall v :: multiset(VideosOf(r))[v] ==
              if Related(db, me, relation, v.id) then multiset(db.videos)[v] else 0
    ensures forall i :: 0 <= i < |r| ==> r[i].views == ViewCount(db.views, r[i].video.id)
  {
    var ids := RelatedVideoIds(db, me, relation);
    var mine := Filter(db.likes, (l: VideoLike) => l.userId == me && l.like == Liked);
    var watched := Filter(db.views, (w: View) => w.userId == me);
    assert forall vid :: vid in ids <==> Related(db, me, relation, vid) by {
      forall vid
        ensures vid in ids <==> Related(db, me, relation, vid)
      {
        if relation == LikedVideos {
          if vid in ids {
            var i :| 0 <= i < |ids| && ids[i] == vid;
            assert mine[i] in mine;
            assert mine[i] == VideoLike(me, vid, Liked);
          }
          if VideoLike(me, vid, Liked) in db.likes {
            var i :| 0 <= i < |mine| && mine[i] == VideoLike(me, vid, Liked);
            assert ids[i] == vid;
          }
        } else {
          if vid in ids {
            var i :| 0 <= i < |ids| && ids[i] == vid;
            assert watched[i] in watched;
            assert watched[i] == View(me, vid);
          }
          if View(me, vid) in db.views {
            var i :| 0 <= i < |watched| && watched[i] == View(me, vid);
            assert ids[i] == vid;
          }
        }
      }
    }
    VideosWithIds(db, ids)
  }

  /** `getLikedVideos` as intended: only the caller's rows with like = 1.
      The handler as written lists every video the caller reacted to, as
      `GetVideosAsWritten(db, me, LikedVideos)` states. */
  function GetLikedVideos(db: Db, me: Id): (r: seq<VideoWithViews>)
    ensures forall v :: v in VideosOf(r) <==> v in db.videos && VideoLike(me, v.id, Liked) in db.likes
    ensures forall v :: multiset(VideosOf(r))[v] ==
              if VideoLike(me, v.id, Liked) in db.likes then multiset(db.videos)[v] else 0
  {
    GetVideos(db, me, LikedVideos)
  }

  /** `getHistory`. */
  function GetHistory(db: Db, me: Id): (r: seq<VideoWithViews>)
    ensures forall v :: v in VideosOf(r) <==> v in db.videos && View(me, v.id) in db.views
    ensures forall v :: multiset(VideosOf(r))[v] == if View(me, v.id) in db.views then multiset(db.videos)[v] else 0
  {
    GetVideos(db, me, History)
  }

  /** As written, a video the caller disliked is listed among the liked
      videos; the intended listing leaves it out. */
  lemma LikedVideosAsWrittenListsDislikes()
    ensures var db := Db([User("u", "u", "", "")], [Video("v", "c", "t", "d", 0)], [],
                         [VideoLike("u", "v", Disliked)], [], []);
            && ReactionOf(db.likes, "u", "v") == Some(Disliked)
            && VideosOf(GetVideosAsWritten(db, "u", LikedVideos)) == db.videos
            && GetVideos(db, "u", LikedVideos) == []
  {
    var db := Db([User("u", "u", "", "")], [Video("v", "c", "t", "d", 0)], [],
                 [VideoLike("u", "v", Disliked)], [], []);
    var asWritten := GetVideosAsWritten(db, "u", LikedVideos);
    assert db.videos[0] in VideosOf(asWritten);
    assert |VideosOf(asWritten)| <= |db.videos| by {
      var filtered := Filter(db.videos, (v: Video) => v.id in RelatedVideoIdsAsWritten(db, "u", LikedVideos));
      assert |filtered| <= 1;
    }
    var intended := GetVideos(db, "u", LikedVideos);
    assert VideoLike("u", "v", Liked) !in db.likes;
    assert |VideosOf(intended)| == |intended|;
  }
}
