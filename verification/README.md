# youtubeclone-backend controllers, modelled in Dafny

This project models the decision logic of the video-sharing backend's two
controllers, `src/controllers/user.js` and `src/controllers/video.js`. The
relational database becomes one immutable value `Db`: users, videos,
subscriptions `(subscriber, subscribeTo)`, reactions `(userId, videoId,
like ∈ {1, -1})`, views `(userId, videoId)` and comments. Each table is a
sequence of rows in storage order. Every request handler is a pure function.
A handler that writes returns `Result<Db>`: the next database, or the
`{ statusCode, message }` object the handler passes to `next`. A failed
handler therefore writes nothing. A read handler returns the enriched rows
it would serialise.

Modules:

- `Outcomes`, `Seqs`, `Text` and `Ordering` are small building blocks.
  They provide results and errors, table filters, the `Op.substring`
  predicate and `ORDER BY createdAt DESC`.
- `Schema` holds the rows, `findByPk`, and the per-row counts
  (`Model.count({ where })`), which every count is checked against.
- `Aggregate` is the batch count-and-merge step that every listing repeats.
  It runs one grouped `COUNT ... GROUP BY` query for the whole batch
  (`Tally`). Each entity then takes the count of its group, or 0
  (`Lookup`, `AttachCounts`). `BatchCounts` proves that this equals a
  separate `count` per entity. `SubscribedFlags` proves that the prefetched
  flag list gives the same answer as an existence check per entity.
- `Subscriptions` holds `toggleSubscribe`, a two-state machine per pair.
- `Reactions` holds `likeVideo` and `dislikeVideo`, a three-state machine
  per (user, video): none, liked, disliked. The two handlers mirror each
  other, so one `React` is written and parameterised by the button pressed.
- `VideoHandlers` holds `newVideo`, `getVideo`, `addComment`, `newView` and
  the live `searchVideo`.
- `UserQueries` holds `getFeed`, `editUser`, `searchUser`, `getProfile`,
  `recommendedVideos`, `recommendChannels`, and `getLikedVideos` /
  `getHistory` through `getVideos`.
- `Scenarios` holds properties linking a write handler to a later read.

The state invariants the code intends to keep are these:

- `Distinct(subscriptions)`: one row per subscription pair.
- `OneReactionPerPair(likes)`: one reaction row per (user, video).
- `Distinct(views)`: one view row per (user, video).

Each write handler is proved to preserve its invariant.

A note on the like/dislike toggle. Pressing the same button twice does not
always restore the original state. From disliked, two likes go
disliked → liked → none. `Reactions.ReactTwice` proves the exact statement:
the rows are restored from none or from the pressed state, and the pair
ends in none from the opposite state.

The `searchVideo` handler that is live in the source counts views with one
`View.count` per video. It does not use the grouped query that the other
listings use. The model follows that code. `SearchVideoMatchesBatchCount`
proves that both ways of counting give the same result.

## Model

| member | source | states |
|---|---|---|
| Text.Contains | src/controllers/user.js:139-143 | `Op.substring` matching: true exactly when the term occurs at some index of the text |
| Ordering.SortNewestFirst | src/controllers/user.js:82 | the output is ordered by `createdAt`, largest first, and is a permutation of the input rows |
| Schema.FindByPk | src/controllers/user.js:28-35 | `findByPk`: returns a row of the table with that primary key, and null only when no row has it |
| Aggregate.Lookup | src/controllers/user.js:100-101 | `find` then `=== undefined ? 0 : count`: the count of the first group with the key, 0 when no group has it, and any non-zero result comes from a group with that key |
| Aggregate.TallyCounts | src/controllers/user.js:92-98 | the grouped `COUNT` query, looked up by key, gives the number of rows with that key |
| Aggregate.TallyWellGrouped | src/controllers/user.js:96-97 | the grouped result has no key twice and no empty group |
| Aggregate.GroupedCounts | src/controllers/user.js:158-171 | the grouped query restricted to the batch ids (`where: { column: ids }`) still counts every id of the batch exactly |
| Aggregate.AttachCounts | src/controllers/user.js:172-176 | the merge keeps length and order, gives 0 when no group has the id, and otherwise takes the count of a group with the id |
| Aggregate.BatchCounts | src/controllers/user.js:158-176 | one grouped query plus the merge attaches to every entity the number of rows whose key column holds its id, as a per-entity `count` would |
| Aggregate.WithViews | src/controllers/user.js:92-102 | view enrichment: same videos in the same order, each `views` equal to its number of view rows |
| Aggregate.SubscribedFlags | src/controllers/user.js:149-181 | `!!subscriptions.find(...)` over the caller's prefetched rows is true exactly when the row (caller, id) exists |
| Subscriptions.Unsubscribe | src/controllers/user.js:44-50 | `destroy` with the pair in `where` removes every row of the pair and keeps every other row |
| Subscriptions.ToggleSubscribe | src/controllers/user.js:20-56 | self-subscription gives 400 whether or not the target exists; otherwise an unknown target gives 404; otherwise only the subscription table changes, the pair's membership flips and every other pair keeps its rows |
| Subscriptions.ToggleSubscribeKeepsDistinct | src/controllers/user.js:44-56 | starting from one row per pair, a toggle keeps one row per pair |
| Subscriptions.ToggleSubscribeTwice | src/controllers/user.js:44-56 | toggling a valid pair twice succeeds, restores the set of subscription rows and, with one row per pair, the very same rows; nothing else changes |
| Reactions.FindReaction | src/controllers/video.js:148-162 | `findOne` with `userId`, `videoId` and `like`: the index of a matching row, and null only when none exists |
| Reactions.PairRows | src/controllers/video.js:148-162 | with one row per pair, the pair's state determines its rows: one row with the state's sign, none with the other |
| Reactions.ReactMultiset | src/controllers/video.js:164-175 | the three branches: destroy removes the pressed-sign row, save trades the opposite-sign row for a pressed-sign row, create adds one pressed-sign row |
| Reactions.ReactOtherRows | src/controllers/video.js:164-175 | a press leaves every row of every other (user, video) pair untouched |
| Reactions.ReactKeepsOneRow | src/controllers/video.js:164-175 | a press keeps at most one reaction row per (user, video) |
| Reactions.ReactTransition | src/controllers/video.js:164-175 | the state machine: the pressed state goes to none, and every other state goes to the pressed state |
| Reactions.ReactStep | src/controllers/video.js:148-175 | one press keeps the invariant, moves the pair's state by the state machine, and leaves other pairs' rows alone |
| Reactions.ReactTwice | src/controllers/video.js:164-175 | two presses of the same button restore the rows from none or from the pressed state; from the opposite state they end in none |
| Reactions.ReactKeysMultiset | src/controllers/video.js:164-175 | the `(videoId, like)` column after each branch of a press |
| Reactions.ReactCounts | src/controllers/video.js:84-94 | a press moves that video's count for the pressed sign by one, up or (when undoing) down; it lowers the other sign's count exactly when it re-signs the caller's row; other videos' counts stay the same |
| Reactions.ReactToVideo | src/controllers/video.js:138-175 | 404 exactly for an unknown video; otherwise only the reaction table changes, following the state machine and keeping the invariant |
| Reactions.LikeVideo | src/controllers/video.js:138-178 | `likeVideo`: 404 for an unknown video; liked → none, disliked → liked, none → liked; one row per pair is kept |
| Reactions.DislikeVideo | src/controllers/video.js:180-220 | `dislikeVideo`: 404 for an unknown video; disliked → none, liked → disliked, none → disliked; one row per pair is kept |
| VideoHandlers.NewVideo | src/controllers/video.js:21-28 | fails, writing nothing, exactly when the id is already taken (the primary-key violation of `Video.create`); otherwise adds exactly one video row, with the caller as owner (the body's `userId` is overridden); the caller's upload count rises by one and no one else's changes; a fresh id is then found by `findByPk` as the new row, and every id found before is found as before |
| VideoHandlers.CommentsOf | src/controllers/video.js:47-56 | exactly the comment rows of the video, each as many times as it is stored |
| VideoHandlers.GetVideo | src/controllers/video.js:30-136 | 404 exactly for an unknown video; otherwise the video's comment rows newest first, each as many times as stored, with `commentsCount` their number, as `Comment.count` gives it; `isLiked`/`isDisliked` are the caller's rows; the like, dislike, view and subscriber counts are the row counts; `isVideoMine` holds iff the caller owns the video; `isSubscribed` and `isViewed` are existence checks |
| VideoHandlers.GetVideoReactionFlags | src/controllers/video.js:58-76 | with one row per pair, `isLiked` and `isDisliked` report the caller's state and are never both true |
| VideoHandlers.AddComment | src/controllers/video.js:222-236 | 404 exactly for an unknown video; otherwise appends exactly one comment with the caller's id, the video id and the text |
| VideoHandlers.NewView | src/controllers/video.js:249-273 | 404 for an unknown video; 400 when the caller's view row exists; otherwise exactly one new row, so that video's view count rises by one, other videos' counts stay, and one row per pair is kept |
| VideoHandlers.NewViewTwice | src/controllers/video.js:259-268 | a second view of the same video by the same user is rejected with the 400 conflict |
| VideoHandlers.MatchingVideos | src/controllers/video.js:344-356 | exactly the videos whose title or description contains the term |
| VideoHandlers.SearchVideo | src/controllers/video.js:337-371 | 400 without a term (missing or empty); otherwise exactly the matching videos in table order, each with its view-row count |
| VideoHandlers.SearchVideoMatchesBatchCount | src/controllers/video.js:361-363 | counting views per row gives the same listing as the batched grouped count |
| UserQueries.SubscribedChannels | src/controllers/user.js:66-71 | the channel ids in the result are exactly those the caller has a subscription row for |
| UserQueries.FeedVideos | src/controllers/user.js:72-83 | exactly the videos whose owner the caller follows |
| UserQueries.GetFeed | src/controllers/user.js:63-111 | the feed is a permutation of the followed channels' videos, newest first, each with its view-row count; empty when there is nothing to show |
| UserQueries.RecommendedVideos | src/controllers/user.js:284-317 | every video once, newest first, each with its view-row count |
| UserQueries.ApplyPatch | src/controllers/user.js:114-118 | a field the body carries takes the body's value, a field it omits keeps the stored one, the id is kept, and an empty body leaves the row unchanged |
| UserQueries.ApplyPatchIdempotent | src/controllers/user.js:114-118 | applying the same body a second time stores the same row |
| UserQueries.EditUserIdempotent | src/controllers/user.js:113-126 | repeating an `editUser` request leaves the database and the user read back as the first request did |
| UserQueries.EditUser | src/controllers/user.js:113-126 | only rows with the caller's id change; the user read back is the caller's, null only when no row has that id |
| UserQueries.ChannelCards | src/controllers/user.js:172-182 | each channel keeps its place and gets its true subscriber count, upload count and the caller's subscription flag |
| UserQueries.UsersMatching | src/controllers/user.js:137-144 | exactly the users whose username contains the term |
| UserQueries.SearchUser | src/controllers/user.js:127-190 | 400 without a term; otherwise the matching users in table order with true aggregates, `isSubscribed` iff a (caller, id) row exists, and `isMe` iff the id is the caller's |
| UserQueries.OtherUsers | src/controllers/user.js:322-330 | exactly the users whose id is not the caller's |
| UserQueries.RecommendChannels | src/controllers/user.js:319-371 | at most 10 channels: the first min(10, others) users other than the caller, each with true aggregates |
| UserQueries.FollowedChannels | src/controllers/user.js:226-239 | exactly the users the profile's owner follows |
| UserQueries.UploadsOf | src/controllers/user.js:253-258 | exactly the videos owned by the user |
| UserQueries.GetProfile | src/controllers/user.js:192-283 | 404 exactly for an unknown id; otherwise the user with their subscriber count, `isMe` iff it is the caller, `isSubscribed` iff the caller follows them, followed channels with subscriber counts, and their videos with view counts; `videos` is absent exactly when they uploaded nothing |
| UserQueries.VideosWithIds | src/controllers/user.js:390-420 | exactly the videos whose id is in the list, each row listed once however often the list names it, each with its view-row count |
| UserQueries.GetVideosAsWritten | src/controllers/user.js:380-401 | as written, the liked-videos listing holds every video with any reaction row of the caller, dislikes included; history holds every viewed video; each video row once, however many relation rows name it |
| UserQueries.GetVideos | src/controllers/user.js:380-429 | as intended, exactly the videos the caller liked (like = 1) or viewed, each row once however many relation rows name it, each with its view-row count |
| UserQueries.GetLikedVideos | src/controllers/user.js:373-375 | as intended, not as written: exactly the videos with a like row (like = 1) of the caller, each row once; the handler as written behaves as UserQueries.GetVideosAsWritten with the reaction table |
| UserQueries.GetHistory | src/controllers/user.js:376-378 | exactly the videos with a view row of the caller, each row once even when duplicate view rows exist |
| UserQueries.LikedVideosAsWrittenListsDislikes | src/controllers/user.js:373-389 | a video the caller only disliked is listed as liked by the code as written, and not by the intended listing |
| Scenarios.FeedFollowsToggle | src/controllers/user.js:44-83 | after a toggle, the target's videos are in the feed exactly when the toggle subscribed |
| Scenarios.NewVideoThenGetVideo | src/controllers/video.js:21-28 | after an upload under a fresh id, `getVideo` finds the new row, marks it as the caller's, and reports the view, like and subscriber counts of the tables as they stood |
| Scenarios.LikeThenGetVideo | src/controllers/video.js:164-175 | after a like, `getVideo` shows `isLiked` as the new state, `isDisliked` false, and `likesCount` moved by one |
| Scenarios.ViewThenGetVideo | src/controllers/video.js:266-273 | after a recorded view, `getVideo` shows `isViewed` and one more view |
| Scenarios.CommentThenGetVideo | src/controllers/video.js:232-236 | after a comment, `getVideo` lists it and `commentsCount` rises by one |

## Left out

- Database connection, SSL options, `sync({ alter: true })` and association wiring in `src/sequelize.js`. This is configuration of an ORM library whose code is not part of this model. Only the schema it implies is used.
- The seeder `src/seeders/20220425170136-deep-dive-user.js`. It generates random data and does I/O.
- The commented-out and "Graveyard" variants of `searchVideo`. They are dead code.
- HTTP plumbing. This covers `asyncHandler`, `res.status().json()`, the `{ success, data }` envelope, `console.log`/`console.time` and `performance.now()` timing. Handlers return values instead.
- The `forEach(async …)` loops that respond at the last index. Only the fully enriched result is modelled. In `searchVideo` the response can leave before the other rows' `View.count` calls finish; that timing is not modelled.
- Concurrency. Each handler is one atomic step, so the race between the existence check and the insert in `toggleSubscribe` and `newView` is not modelled.
- SQL semantics of `Op.substring`: case sensitivity, collation, and `%` or `_` inside the term. It is a plain substring test.
- The joined `User` attributes (`include: { model: User }`), the selected column lists, and the `User` object that `addComment` attaches from `req.user`. Rows keep only the fields the decisions read.
- JSON value types. PostgreSQL returns `COUNT` as a string while the default is the number 0; counts are `nat` here.
- Database-generated values. Video ids and `createdAt` of videos and comments are parameters. For a video, `...req.body` may supply either of them; otherwise the database and the clock do. View and reaction timestamps are not kept.
- VideoHandlers.NewVideo: a taken id gives `None`. The status and message that the error middleware builds from the database's constraint error are not modelled, because that middleware is not part of this model. The other body columns (thumbnail, url) are not kept.
- Result order of queries without `ORDER BY`. It is taken as table order, and `findOne` picks the first matching row. Ties in `createdAt` are broken by position.
- UserQueries.EditUser: the body can name any column (id, email, password, …). Only username, channel description and avatar are modelled, so the contract is weaker than an update of arbitrary columns.
- Reactions.ReactToVideo: the state-machine guarantees assume at most one reaction row per (user, video). The code promises nothing about tables that already hold two rows for a pair.

## Findings

| source | as written | input that shows it | evidently intended | confidence | as-written member | corrected member |
|---|---|---|---|---|---|---|
| src/controllers/user.js:373-389 | `getLikedVideos` passes the `VideoLike` model to `getVideos`, which selects all of the caller's rows whatever their `like` value | a caller whose only reaction is a dislike `(u, v, -1)` gets `v` back from `getLikedVideos` | only rows with `like = 1` count as liked videos | medium, not executed | UserQueries.GetVideosAsWritten | UserQueries.GetVideos |
