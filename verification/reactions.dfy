/** `likeVideo` and `dislikeVideo` (src/controllers/video.js): a three-state
    machine per (user, video) pair — none, liked, disliked — kept as at most
    one `VideoLike` row whose sign is the state. The two handlers are mirror
    images: `React` is written once, parameterised by the reaction pressed. */
module Reactions {
  import opened Outcomes
  import opened Schema
  import opened Seqs

  /** `(userId, videoId)` of each reaction row. */
  function PairKeys(likes: seq<VideoLike>): seq<(Id, Id)>
  {
    seq(|likes|, i requires 0 <= i < |likes| => (likes[i].userId, likes[i].videoId))
  }

  /** At most one reaction row per (user, video) pair. */
  predicate OneReactionPerPair(likes: seq<VideoLike>)
  {
    Distinct(PairKeys(likes))
  }

  /** The state of pair (u, v): `Some(Liked)`, `Some(Disliked)`, or `None`. */
  function ReactionOf(likes: seq<VideoLike>, u: Id, v: Id): Option<Reaction>
  {
    if VideoLike(u, v, Liked) in likes then Some(Liked)
    else if VideoLike(u, v, Disliked) in likes then Some(Disliked)
    else None
  }

  /** `VideoLike.findOne({ where: { userId, videoId, like } })`: the index of
      the first matching row, or null. */
  function FindReaction(likes: seq<VideoLike>, u: Id, v: Id, r: Reaction): (k: Option<nat>)
    ensures k.Some? ==> k.value < |likes| && likes[k.value] == VideoLike(u, v, r)
    ensures k.None? <==> VideoLike(u, v, r) !in likes
  {
    if |likes| == 0 then None
    else if likes[0] == VideoLike(u, v, r) then Some(0)
    else match FindReaction(likes[1..], u, v, r)
      case Some(k) => Some(k + 1)
      case None => None
  }

  /** Pressing reaction `r` on pair (u, v): the row with that sign is
      destroyed; else the row with the other sign is re-signed and saved; else
      a row with sign `r` is created. */
  function React(likes: seq<VideoLike>, u: Id, v: Id, r: Reaction): seq<VideoLike>
  {
    var same := FindReaction(likes, u, v, r);
    var other := FindReaction(likes, u, v, r.Opposite());
    if same.Some? then RemoveAt(likes, same.value)
    else if other.Some? then likes[other.value := VideoLike(u, v, r)]
    else likes + [VideoLike(u, v, r)]
  }

  /** Under the one-row invariant the state determines the pair's rows. */
  lemma PairRows(likes: seq<VideoLike>, u: Id, v: Id, q: Reaction)
    requires OneReactionPerPair(likes)
    ensures multiset(likes)[VideoLike(u, v, q)] == if ReactionOf(likes, u, v) == Some(q) then 1 else 0
  {
    var keys := PairKeys(likes);
    assert Distinct(likes) by {
      forall i, j | 0 <= i < |likes| && 0 <= j < |likes| && likes[i] == likes[j]
        ensures i == j
      {
        assert keys[i] == keys[j];
      }
    }
    DistinctMultiset(likes, VideoLike(u, v, q));
    if VideoLike(u, v, q) in likes {
      var i :| 0 <= i < |likes| && likes[i] == VideoLike(u, v, q);
      forall j | 0 <= j < |likes|
        ensures likes[j] != VideoLike(u, v, q.Opposite())
      {
        if j != i {
          assert keys[i] != keys[j];
        }
      }
    }
  }

  /** The multiset of rows after a press, by case. */
  lemma ReactMultiset(likes: seq<VideoLike>, u: Id, v: Id, r: Reaction)
    ensures var same := FindReaction(likes, u, v, r);
            var other := FindReaction(likes, u, v, r.Opposite());
            multiset(React(likes, u, v, r)) ==
              if same.Some? then multiset(likes) - multiset{VideoLike(u, v, r)}
              else if other.Some? then multiset(likes) - multiset{VideoLike(u, v, r.Opposite())} + multiset{VideoLike(u, v, r)}
              else multiset(likes) + multiset{VideoLike(u, v, r)}
  {
    var other := FindReaction(likes, u, v, r.Opposite());
    if FindReaction(likes, u, v, r).None? && other.Some? {
      UpdateMultiset(likes, other.value, VideoLike(u, v, r));
    }
  }

  /** A press leaves every row of every other pair where it was. */
  lemma ReactOtherRows(likes: seq<VideoLike>, u: Id, v: Id, r: Reaction)
    ensures forall x: VideoLike :: (x.userId, x.videoId) != (u, v) ==>
              multiset(React(likes, u, v, r))[x] == multiset(likes)[x]
  {
    ReactMultiset(likes, u, v, r);
  }

  /** A press keeps at most one row per pair. */
  lemma ReactKeepsOneRow(likes: seq<VideoLike>, u: Id, v: Id, r: Reaction)
    requires OneReactionPerPair(likes)
    ensures OneReactionPerPair(React(likes, u, v, r))
  {
    var after := React(likes, u, v, r);
    var same := FindReaction(likes, u, v, r);
    var other := FindReaction(likes, u, v, r.Opposite());
    if same.Some? {
      RemoveAtDistinct(PairKeys(likes), same.value);
      assert PairKeys(after) == RemoveAt(PairKeys(likes), same.value);
    } else if other.Some? {
      assert PairKeys(after) == PairKeys(likes);
    } else {
      assert PairKeys(after) == PairKeys(likes) + [(u, v)];
      forall i | 0 <= i < |likes|
        ensures PairKeys(likes)[i] != (u, v)
      {
        assert likes[i] in likes;
        assert likes[i] != VideoLike(u, v, Liked) && likes[i] != VideoLike(u, v, Disliked);
      }
      AppendDistinct(PairKeys(likes), (u, v));
    }
  }

  /** A press moves the pair along the state machine. */
  lemma ReactTransition(likes: seq<VideoLike>, u: Id, v: Id, r: Reaction)
    requires OneReactionPerPair(likes)
    ensures ReactionOf(React(likes, u, v, r), u, v) ==
              (if ReactionOf(likes, u, v) == Some(r) then None else Some(r))
  {
    var after := React(likes, u, v, r);
    PairRows(likes, u, v, r);
    PairRows(likes, u, v, r.Opposite());
    ReactMultiset(likes, u, v, r);
    assert VideoLike(u, v, r) in after <==> multiset(after)[VideoLike(u, v, r)] > 0;
    assert VideoLike(u, v, r.Opposite()) in after <==> multiset(after)[VideoLike(u, v, r.Opposite())] > 0;
  }

  /** One press moves the pair along the state machine, keeps the one-row
      invariant, and leaves every row of every other pair where it was. */
  lemma ReactStep(likes: seq<VideoLike>, u: Id, v: Id, r: Reaction)
    requires OneReactionPerPair(likes)
    ensures var after := React(likes, u, v, r);
            && OneReactionPerPair(after)
            && ReactionOf(after, u, v) == (if ReactionOf(likes, u, v) == Some(r) then None else Some(r))
            && forall x: VideoLike :: (x.userId, x.videoId) != (u, v) ==> multiset(after)[x] == multiset(likes)[x]
  {
    ReactKeepsOneRow(likes, u, v, r);
    ReactTransition(likes, u, v, r);
    ReactOtherRows(likes, u, v, r);
  }

  /** Pressing the same reaction twice restores the pair unless it started in
      the opposite state, in which case it ends in none (disliked → liked →
      none for two likes); when restored, the table holds the same rows. */
  lemma ReactTwice(likes: seq<VideoLike>, u: Id, v: Id, r: Reaction)
    requires OneReactionPerPair(likes)
    ensures var twice := React(React(likes, u, v, r), u, v, r);
            && OneReactionPerPair(twice)
            && ReactionOf(twice, u, v) == (if ReactionOf(likes, u, v) == Some(r.Opposite()) then None else ReactionOf(likes, u, v))
            && (ReactionOf(likes, u, v) != Some(r.Opposite()) ==> multiset(twice) == multiset(likes))
  {
    var once := React(likes, u, v, r);
    var twice := React(once, u, v, r);
    ReactStep(likes, u, v, r);
    ReactStep(once, u, v, r);
    if ReactionOf(likes, u, v) != Some(r.Opposite()) {
      forall x
        ensures multiset(twice)[x] == multiset(likes)[x]
      {
        if (x.userId, x.videoId) == (u, v) {
          assert x == VideoLike(u, v, x.like);
          PairRows(likes, u, v, x.like);
          PairRows(twice, u, v, x.like);
        }
      }
      assert multiset(twice) == multiset(likes);
    }
  }

  lemma KeysRemoveAt(likes: seq<VideoLike>, i: nat)
    requires i < |likes|
    ensures ReactionKeys(RemoveAt(likes, i)) == RemoveAt(ReactionKeys(likes), i)
  {
  }

  lemma KeysUpdate(likes: seq<VideoLike>, i: nat, x: VideoLike)
    requires i < |likes|
    ensures ReactionKeys(likes[i := x]) == ReactionKeys(likes)[i := (x.videoId, x.like)]
  {
  }

  lemma KeysAppend(likes: seq<VideoLike>, x: VideoLike)
    ensures ReactionKeys(likes + [x]) == ReactionKeys(likes) + [(x.videoId, x.like)]
  {
  }

  /** The `(videoId, like)` column after a press, by case. */
  lemma ReactKeysMultiset(likes: seq<VideoLike>, u: Id, v: Id, r: Reaction)
    ensures var same := FindReaction(likes, u, v, r);
            var other := FindReaction(likes, u, v, r.Opposite());
            multiset(ReactionKeys(React(likes, u, v, r))) ==
              if same.Some? then multiset(ReactionKeys(likes)) - multiset{(v, r)}
              else if other.Some? then multiset(ReactionKeys(likes)) - multiset{(v, r.Opposite())} + multiset{(v, r)}
              else multiset(ReactionKeys(likes)) + multiset{(v, r)}
  {
    var same := FindReaction(likes, u, v, r);
    var other := FindReaction(likes, u, v, r.Opposite());
    if same.Some? {
      KeysRemoveAt(likes, same.value);
    } else if other.Some? {
      KeysUpdate(likes, other.value, VideoLike(u, v, r));
      UpdateMultiset(ReactionKeys(likes), other.value, (v, r));
    } else {
      KeysAppend(likes, VideoLike(u, v, r));
    }
  }

  /** What a press does to the `likesCount` and `dislikesCount` that
      `getVideo` reports: the pressed count goes up by one, or down by one
      when the press undoes it; the other count drops by one exactly when
      the press re-signs the caller's row; other videos are untouched. */
  lemma ReactCounts(likes: seq<VideoLike>, u: Id, v: Id, r: Reaction)
    requires OneReactionPerPair(likes)
    ensures var after := React(likes, u, v, r);
            var state := ReactionOf(likes, u, v);
            && ReactionCount(after, v, r) + (if state == Some(r) then 1 else 0) ==
               ReactionCount(likes, v, r) + (if state == Some(r) then 0 else 1)
            && ReactionCount(after, v, r.Opposite()) + (if state == Some(r.Opposite()) then 1 else 0) ==
               ReactionCount(likes, v, r.Opposite())
            && forall w, q :: w != v ==> ReactionCount(after, w, q) == ReactionCount(likes, w, q)
  {
    var state := ReactionOf(likes, u, v);
    ReactKeysMultiset(likes, u, v, r);
    PairRows(likes, u, v, r);
    PairRows(likes, u, v, r.Opposite());
    assert VideoLike(u, v, r) in likes <==> VideoLike(u, v, r) in multiset(likes);
    assert VideoLike(u, v, r.Opposite()) in likes <==> VideoLike(u, v, r.Opposite()) in multiset(likes);
    assert FindReaction(likes, u, v, r).Some? <==> state == Some(r);
    assert FindReaction(likes, u, v, r.Opposite()).Some? <==> state == Some(r.Opposite());
  }

  /** The shared shape of both handlers: 404 for an unknown video, otherwise
      one press of `r` by `me` on `vid`. */
  function ReactToVideo(db: Db, me: Id, vid: Id, r: Reaction): (res: Result<Db>)
    ensures res.Err? <==> FindVideo(db.videos, vid).None?
    ensures res.Err? ==> res.error == VideoNotFound(vid)
    ensures res.Ok? ==> res.value.(likes := db.likes) == db
    ensures res.Ok? && OneReactionPerPair(db.likes) ==>
              && OneReactionPerPair(res.value.likes)
              && ReactionOf(res.value.likes, me, vid) ==
                   (if ReactionOf(db.likes, me, vid) == Some(r) then None else Some(r))
              && forall x: VideoLike :: (x.userId, x.videoId) != (me, vid) ==>
                   multiset(res.value.likes)[x] == multiset(db.likes)[x]
  {
    if FindVideo(db.videos, vid).None? then
      Err(VideoNotFound(vid))
    else
      var likes := React(db.likes, me, vid, r);
      assert OneReactionPerPair(db.likes) ==>
               && OneReactionPerPair(likes)
               && ReactionOf(likes, me, vid) == (if ReactionOf(db.likes, me, vid) == Some(r) then None else Some(r))
               && forall x: VideoLike :: (x.userId, x.videoId) != (me, vid) ==> multiset(likes)[x] == multiset(db.likes)[x]
      by {
        if OneReactionPerPair(db.likes) {
          ReactStep(db.likes, me, vid, r);
        }
      }
      Ok(db.(likes := likes))
  }

  /** `likeVideo`: liked → none, disliked → liked, none → liked. */
  function LikeVideo(db: Db, me: Id, vid: Id): (res: Result<Db>)
    ensures res.Err? <==> FindVideo(db.videos, vid).None?
    ensures res.Err? ==> res.error == VideoNotFound(vid)
    ensures res.Ok? ==> res.value.(likes := db.likes) == db
    ensures res.Ok? && OneReactionPerPair(db.likes) ==>
              && OneReactionPerPair(res.value.likes)
              && ReactionOf(res.value.likes, me, vid) ==
                   (if ReactionOf(db.likes, me, vid) == Some(Liked) then None else Some(Liked))
  {
    ReactToVideo(db, me, vid, Liked)
  }

  /** `dislikeVideo`: disliked → none, liked → disliked, none → disliked. */
  function DislikeVideo(db: Db, me: Id, vid: Id): (res: Result<Db>)
    ensures res.Err? <==> FindVideo(db.videos, vid).None?
    ensures res.Err? ==> res.error == VideoNotFound(vid)
    ensures res.Ok? ==> res.value.(likes := db.likes) == db
    ensures res.Ok? && OneReactionPerPair(db.likes) ==>
              && OneReactionPerPair(res.value.likes)
              && ReactionOf(res.value.likes, me, vid) ==
                   (if ReactionOf(db.likes, me, vid) == Some(Disliked) then None else Some(Disliked))
  {
    ReactToVideo(db, me, vid, Disliked)
  }
}
