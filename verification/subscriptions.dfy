/** `toggleSubscribe` (src/controllers/user.js): a two-state machine per
    (subscriber, channel) pair, flipped by delete-if-present-else-insert. */
module Subscriptions {
  import opened Outcomes
  import opened Schema
  import opened Seqs

  const SelfSubscribeMessage: string := "You cannot to subscribe to your own channel"

  function UserNotFound(id: Id): HttpError
  {
    HttpError(NotFound, "No user found for ID - '" + id + "'")
  }

  /** `Subscription.destroy({ where: { subscriber, subscribeTo } })`: every
      row of the pair goes, every other row stays. */
  function Unsubscribe(subscriptions: seq<Subscription>, me: Id, target: Id): (r: seq<Subscription>)
    ensures Subscription(me, target) !in r
    ensures forall s :: s != Subscription(me, target) ==> multiset(r)[s] == multiset(subscriptions)[s]
  {
    var pair := Subscription(me, target);
    var r := Filter(subscriptions, s => s != pair);
    assert forall s :: s != pair ==> multiset(r)[s] == multiset(subscriptions)[s] by {
      forall s | s != pair
        ensures multiset(r)[s] == multiset(subscriptions)[s]
      {
        FilterMultiset(subscriptions, s => s != pair, s);
      }
    }
    r
  }

  /** The caller `me` toggles a subscription to channel `target`. */
  function ToggleSubscribe(db: Db, me: Id, target: Id): (r: Result<Db>)
    ensures me == target ==> r == Err(HttpError(BadRequest, SelfSubscribeMessage))
    ensures me != target && FindUser(db.users, target).None? ==> r == Err(UserNotFound(target))
    ensures r.Ok? <==> me != target && FindUser(db.users, target).Some?
    ensures r.Ok? ==> r.value.(subscriptions := db.subscriptions) == db
    ensures r.Ok? ==>
              (Subscription(me, target) in r.value.subscriptions <==> Subscription(me, target) !in db.subscriptions)
    ensures r.Ok? ==> forall s :: s != Subscription(me, target) ==>
              multiset(r.value.subscriptions)[s] == multiset(db.subscriptions)[s]
  {
    if me == target then
      Err(HttpError(BadRequest, SelfSubscribeMessage))
    else if FindUser(db.users, target).None? then
      Err(UserNotFound(target))
    else if Subscription(me, target) in db.subscriptions then
      Ok(db.(subscriptions := Unsubscribe(db.subscriptions, me, target)))
    else
      Ok(db.(subscriptions := db.subscriptions + [Subscription(me, target)]))
  }

  /** Starting from a table with one row per pair, a toggle keeps it so. */
  lemma ToggleSubscribeKeepsDistinct(db: Db, me: Id, target: Id)
    requires Distinct(db.subscriptions)
    requires ToggleSubscribe(db, me, target).Ok?
    ensures Distinct(ToggleSubscribe(db, me, target).value.subscriptions)
  {
    if Subscription(me, target) in db.subscriptions {
      FilterDistinct(db.subscriptions, s => s != Subscription(me, target));
    } else {
      AppendDistinct(db.subscriptions, Subscription(me, target));
    }
  }

  /** Toggling the same pair twice restores the subscription relation, and,
      with one row per pair, the very same rows; nothing else in the
      database moves. */
  lemma {:induction false} ToggleSubscribeTwice(db: Db, me: Id, target: Id)
    requires ToggleSubscribe(db, me, target).Ok?
    ensures ToggleSubscribe(ToggleSubscribe(db, me, target).value, me, target).Ok?
    ensures var db2 := ToggleSubscribe(ToggleSubscribe(db, me, target).value, me, target).value;
            && db2.(subscriptions := db.subscriptions) == db
            && (forall s :: s in db2.subscriptions <==> s in db.subscriptions)
            && (Distinct(db.subscriptions) ==> multiset(db2.subscriptions) == multiset(db.subscriptions))
  {
    var pair := Subscription(me, target);
    var db1 := ToggleSubscribe(db, me, target).value;
    var db2 := ToggleSubscribe(db1, me, target).value;
    assert db1.users == db.users;
    forall s
      ensures multiset(db2.subscriptions)[s] == multiset(db.subscriptions)[s] || s == pair
    {
    }
    if Distinct(db.subscriptions) {
      DistinctMultiset(db.subscriptions, pair);
      assert multiset(db2.subscriptions)[pair] == multiset(db.subscriptions)[pair];
      assert multiset(db2.subscriptions) == multiset(db.subscriptions);
    }
    forall s
      ensures s in db2.subscriptions <==> s in db.subscriptions
    {
      if s != pair {
        assert s in db2.subscriptions <==> s in multiset(db2.subscriptions);
        assert s in db.subscriptions <==> s in multiset(db.subscriptions);
      }
    }
  }
}
