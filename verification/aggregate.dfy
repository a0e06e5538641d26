/** The batch count-and-merge step shared by the listing handlers: one grouped
    `COUNT` query over the whole batch, then each entity looks its count up in
    the grouped rows (`rows.find(r => r.key === id)`), defaulting to 0. */
module Aggregate {
  import opened Schema
  import opened Seqs

  /** One row of a grouped count query: `{ key, count }`. */
  datatype Group = Group(key: Id, count: nat)

  /** Adds one table row with key `k` to a grouped result. */
  function Bump(groups: seq<Group>, k: Id): seq<Group>
  {
    if |groups| == 0 then [Group(k, 1)]
    else if groups[0].key == k then [Group(k, groups[0].count + 1)] + groups[1..]
    else [groups[0]] + Bump(groups[1..], k)
  }

  /** `SELECT key, COUNT(key) ... GROUP BY key` over the key column `keys`. */
  function Tally(keys: seq<Id>): seq<Group>
  {
    if |keys| == 0 then [] else Bump(Tally(keys[..|keys| - 1]), keys[|keys| - 1])
  }

  /** The count of the first group whose key is `k`, or 0 when there is none:
      `found === undefined ? 0 : found.count`. */
  function Lookup(groups: seq<Group>, k: Id): (n: nat)
    ensures (forall j :: 0 <= j < |groups| ==> groups[j].key != k) ==> n == 0
    ensures forall j :: (0 <= j < |groups| && groups[j].key == k &&
                         (forall l :: 0 <= l < j ==> groups[l].key != k)) ==> n == groups[j].count
    ensures n != 0 ==> exists j :: 0 <= j < |groups| && groups[j].key == k && groups[j].count == n
  {
    if |groups| == 0 then 0
    else if groups[0].key == k then groups[0].count
    else Lookup(groups[1..], k)
  }

  lemma {:induction false} LookupBump(groups: seq<Group>, k: Id, j: Id)
    ensures Lookup(Bump(groups, k), j) == Lookup(groups, j) + (if j == k then 1 else 0)
  {
    if |groups| > 0 && groups[0].key != k {
      LookupBump(groups[1..], k, j);
      assert Bump(groups, k)[1..] == Bump(groups[1..], k);
    }
  }

  /** The grouped query counts every key exactly as often as it occurs. */
  lemma {:induction false} TallyCounts(keys: seq<Id>, k: Id)
    ensures Lookup(Tally(keys), k) == multiset(keys)[k]
  {
    if |keys| > 0 {
      var init, last := keys[..|keys| - 1], keys[|keys| - 1];
      var before := Tally(init);
      assert Tally(keys) == Bump(before, last);
      TallyCounts(init, k);
      LookupBump(before, last, k);
      LastMultiset(keys);
    }
  }

  /** The shape of a `GROUP BY` result: no key is grouped twice and no group
      is empty. */
  ghost predicate WellGrouped(groups: seq<Group>)
  {
    && (forall i, j :: 0 <= i < j < |groups| ==> groups[i].key != groups[j].key)
    && (forall i :: 0 <= i < |groups| ==> groups[i].count > 0)
  }

  lemma {:induction false} BumpWellGrouped(groups: seq<Group>, k: Id)
    requires WellGrouped(groups)
    ensures WellGrouped(Bump(groups, k))
    ensures forall i :: 0 <= i < |Bump(groups, k)| ==>
              Bump(groups, k)[i].key == k || exists j :: 0 <= j < |groups| && groups[j].key == Bump(groups, k)[i].key
  {
    if |groups| > 0 && groups[0].key != k {
      var tail := Bump(groups[1..], k);
      BumpWellGrouped(groups[1..], k);
      assert Bump(groups, k) == [groups[0]] + tail;
      forall i | 0 <= i < |tail|
        ensures tail[i].key != groups[0].key
      {
        if tail[i].key != k {
          var j :| 0 <= j < |groups[1..]| && groups[1..][j].key == tail[i].key;
          assert groups[j + 1].key == tail[i].key;
        }
      }
      forall i | 0 <= i < |tail| && tail[i].key != k
        ensures exists j :: 0 <= j < |groups| && groups[j].key == tail[i].key
      {
        var j :| 0 <= j < |groups[1..]| && groups[1..][j].key == tail[i].key;
        assert groups[j + 1].key == tail[i].key;
      }
    }
  }

  /** `Tally` has the shape of a `GROUP BY` result; with `TallyCounts`, it
      holds one group for each key that occurs, carrying its count. */
  lemma {:induction false} TallyWellGrouped(keys: seq<Id>)
    ensures WellGrouped(Tally(keys))
  {
    if |keys| > 0 {
      TallyWellGrouped(keys[..|keys| - 1]);
      BumpWellGrouped(Tally(keys[..|keys| - 1]), keys[|keys| - 1]);
    }
  }

  /** `where: { column: batchIds }`: the key column restricted to the batch. */
  function Restrict(keys: seq<Id>, batch: seq<Id>): (r: seq<Id>)
    ensures forall k :: k in r ==> k in batch
    ensures forall k :: k in batch ==> multiset(r)[k] == multiset(keys)[k]
  {
    var r := Filter(keys, k => k in batch);
    assert forall k :: k in batch ==> multiset(r)[k] == multiset(keys)[k] by {
      forall k | k in batch
        ensures multiset(r)[k] == multiset(keys)[k]
      {
        FilterMultiset(keys, k => k in batch, k);
      }
    }
    r
  }

  /** The grouped counts of `keys` restricted to the batch `ids`. */
  function GroupedCounts(keys: seq<Id>, ids: seq<Id>): (groups: seq<Group>)
    ensures forall k :: k in ids ==> Lookup(groups, k) == multiset(keys)[k]
  {
    var groups := Tally(Restrict(keys, ids));
    assert forall k :: k in ids ==> Lookup(groups, k) == multiset(keys)[k] by {
      forall k | k in ids
        ensures Lookup(groups, k) == multiset(keys)[k]
      {
        TallyCounts(Restrict(keys, ids), k);
      }
    }
    groups
  }

  /** The merge: one count per id, in the order of `ids`, each the count of
      the first group for that id, or 0 when the grouped query has none. */
  function AttachCounts(ids: seq<Id>, groups: seq<Group>): (r: seq<nat>)
    ensures |r| == |ids|
    ensures forall i :: 0 <= i < |ids| && (forall j :: 0 <= j < |groups| ==> groups[j].key != ids[i]) ==> r[i] == 0
    ensures forall i, j :: (0 <= i < |ids| && 0 <= j < |groups| && groups[j].key == ids[i] &&
                            (forall l :: 0 <= l < j ==> groups[l].key != ids[i])) ==> r[i] == groups[j].count
    ensures forall i :: 0 <= i < |ids| && r[i] != 0 ==>
              exists j :: 0 <= j < |groups| && groups[j].key == ids[i] && groups[j].count == r[i]
  {
    seq(|ids|, i requires 0 <= i < |ids| => Lookup(groups, ids[i]))
  }

  /** One grouped query for the batch, merged back: every id receives the
      number of rows whose key column holds it, exactly what a separate
      `count` per entity would return. An empty batch issues no query. */
  function BatchCounts(keys: seq<Id>, ids: seq<Id>): (r: seq<nat>)
    ensures |r| == |ids|
    ensures forall i :: 0 <= i < |ids| ==> r[i] == multiset(keys)[ids[i]]
  {
    if |ids| == 0 then []
    else
      var groups := GroupedCounts(keys, ids);
      AttachCounts(ids, groups)
  }

  /** A video with its `views` count attached. */
  datatype VideoWithViews = VideoWithViews(video: Video, views: nat)

  function VideosOf(listing: seq<VideoWithViews>): seq<Video>
  {
    seq(|listing|, i requires 0 <= i < |listing| => listing[i].video)
  }

  /** The view-count enrichment of a batch of videos: same length, same
      order, and each `views` is the number of view rows of that video. */
  function WithViews(batch: seq<Video>, views: seq<View>): (r: seq<VideoWithViews>)
    ensures VideosOf(r) == batch
    ensures forall i :: 0 <= i < |r| ==> r[i].views == ViewCount(views, batch[i].id)
  {
    var ids := VideoIds(batch);
    var counts := BatchCounts(ViewedVideoIds(views), ids);
    var r := seq(|batch|, i requires 0 <= i < |batch| => VideoWithViews(batch[i], counts[i]));
    assert VideosOf(r) == batch;
    r
  }

  /** `!!mine.find(s => s.subscribeTo === id)` for each id, where `mine` is the
      caller's subscriptions prefetched for the batch. */
  function SubscribedFlags(subscriptions: seq<Subscription>, me: Id, ids: seq<Id>): (r: seq<bool>)
    ensures |r| == |ids|
    ensures forall i :: 0 <= i < |ids| ==> (r[i] <==> Subscription(me, ids[i]) in subscriptions)
  {
    var mine := Filter(subscriptions, (s: Subscription) => s.subscriber == me && s.subscribeTo in ids);
    var r := seq(|ids|, i requires 0 <= i < |ids| => exists k | 0 <= k < |mine| :: mine[k].subscribeTo == ids[i]);
    assert forall i :: 0 <= i < |ids| ==> (r[i] <==> Subscription(me, ids[i]) in subscriptions) by {
      forall i | 0 <= i < |ids|
        ensures r[i] <==> Subscription(me, ids[i]) in subscriptions
      {
        if r[i] {
          var k :| 0 <= k < |mine| && mine[k].subscribeTo == ids[i];
          assert mine[k] in mine;
        }
        if Subscription(me, ids[i]) in subscriptions {
          assert Subscription(me, ids[i]) in mine;
          var k :| 0 <= k < |mine| && mine[k] == Subscription(me, ids[i]);
          assert mine[k].subscribeTo == ids[i];
        }
      }
    }
    r
  }
}
