/**
 * controllers/subscription.controller.js: `toggleSubscription`.
 *
 * As written the existing subscription is looked up with `{ _id: channelId,
 * subscriber }`, i.e. by the subscription's own id, although the intent is
 * `{ channel: channelId, subscriber }`.  `ToggleSubscription` models the code
 * as written; `ToggleSubscriptionByChannel` is the intended lookup, and
 * `LookupByIdDuplicates` shows the difference.
 */
module SubscriptionController {
  import opened Wrappers
  import opened ObjectIds
  import opened Seqs
  import opened Envelope
  import opened Records
  import opened StoreState

  /** The filter as written: `{ _id: channelId, subscriber: user }`. */
  function ById(user: Id, channel: Id): Subscription -> bool {
    (s: Subscription) => s.id == channel && s.subscriber == user
  }

  /** The filter as intended: `{ channel: channelId, subscriber: user }`. */
  function ByChannel(user: Id, channel: Id): Subscription -> bool {
    (s: Subscription) => s.channel == channel && s.subscriber == user
  }

  predicate Subscribed(subs: seq<Subscription>, user: Id, channel: Id) {
    Count(subs, ByChannel(user, channel)) > 0
  }

  /** The collection after a toggle whose lookup is `key`; `id` is the id a created subscription takes. */
  function ToggleWith(subs: seq<Subscription>, key: Subscription -> bool, user: Id, channel: Id, id: Id): (r: seq<Subscription>)
    ensures Count(subs, key) > 0 ==> |r| == |subs| - 1
    ensures Count(subs, key) == 0 ==> r == subs + [Subscription(id, user, channel)]
  {
    CountZeroIffNone(subs, key);
    Toggle(subs, key, Subscription(id, user, channel))
  }

  /**
   * As written: when no subscription has `_id == channelId` (the case whenever
   * the client passes the channel's id), an existing subscription to the
   * channel is not found and a second one is created.
   */
  lemma LookupByIdDuplicates(subs: seq<Subscription>, user: Id, channel: Id, id: Id)
    requires forall k :: 0 <= k < |subs| ==> subs[k].id != channel
    requires Subscribed(subs, user, channel)
    ensures Count(ToggleWith(subs, ById(user, channel), user, channel, id), ByChannel(user, channel))
         == Count(subs, ByChannel(user, channel)) + 1
  {
    CountZeroIffNone(subs, ById(user, channel));
    CountAppendOne(subs, Subscription(id, user, channel), ByChannel(user, channel));
  }

  /** A concrete instance: user 1 subscribed to channel 2 ends up subscribed twice. */
  lemma LookupByIdDuplicatesExample()
    ensures var subs := [Subscription(3, 1, 2)];
      Count(ToggleWith(subs, ById(1, 2), 1, 2, 4), ByChannel(1, 2)) == 2
  {
    var subs := [Subscription(3, 1, 2)];
    assert Filter(subs, ByChannel(1, 2)) == [subs[0]] + Filter([], ByChannel(1, 2));
    LookupByIdDuplicates(subs, 1, 2, 4);
  }

  /**
   * With the intended lookup a toggle flips the subscription and keeps at most
   * one per (subscriber, channel); two toggles restore whether it exists.
   */
  lemma ByChannelToggleFlips(subs: seq<Subscription>, user: Id, channel: Id, id1: Id, id2: Id)
    requires Count(subs, ByChannel(user, channel)) <= 1
    ensures var once := ToggleWith(subs, ByChannel(user, channel), user, channel, id1);
      (Subscribed(once, user, channel) <==> !Subscribed(subs, user, channel))
      && Count(once, ByChannel(user, channel)) <= 1
      && Subscribed(ToggleWith(once, ByChannel(user, channel), user, channel, id2), user, channel)
         == Subscribed(subs, user, channel)
  {
    var key := ByChannel(user, channel);
    ToggleCount(subs, key, Subscription(id1, user, channel));
    ToggleTwice(subs, key, Subscription(id1, user, channel), Subscription(id2, user, channel));
  }

  /** With the intended lookup, every subscription of another (subscriber, channel) pair stays, in order. */
  lemma ToggleKeepsOtherSubscriptions(subs: seq<Subscription>, user: Id, channel: Id, id: Id)
    ensures var key := ByChannel(user, channel);
      Filter(ToggleWith(subs, key, user, channel, id), Not(key)) == Filter(subs, Not(key))
  {
    ToggleKeepsOthers(subs, ByChannel(user, channel), Subscription(id, user, channel));
  }

  method ToggleOn(st: Store, me: Id, channel: Id, key: Subscription -> bool) returns (o: Outcome<Subscription>)
    requires st.Valid()
    modifies st
    ensures st.Valid()
    ensures st.subscriptions == ToggleWith(old(st.subscriptions), key, me, channel, old(st.nextId))
    ensures Count(old(st.subscriptions), key) > 0 ==> (o == Reply(200, 200, Blank(EmptyObject), "Subscription removed")
      && st.Snapshot() == old(st.Snapshot()).(subscriptions := st.subscriptions))
    ensures Count(old(st.subscriptions), key) == 0 ==> (
      o == Reply(201, 201, Doc(Subscription(old(st.nextId), me, channel)), "Subscription added")
      && st.Snapshot() == old(st.Snapshot()).(subscriptions := st.subscriptions, nextId := old(st.nextId) + 1))
  {
    CountZeroIffNone(st.subscriptions, key);
    match FirstIndex(st.subscriptions, key)
    case Some(i) =>
      RemoveAtIdsOk(st.subscriptions, i, SubscriptionId, st.nextId);
      st.subscriptions := RemoveAt(st.subscriptions, i);
      o := Reply(200, 200, Blank(EmptyObject), "Subscription removed");
    case None =>
      var id := st.NewId();
      var created := Subscription(id, me, channel);
      AppendIdsOk(st.subscriptions, created, SubscriptionId, id);
      st.subscriptions := st.subscriptions + [created];
      o := Reply(201, 201, Doc(created), "Subscription added");
  }

  /** `toggleSubscription` as written: missing or malformed ids are refused with 400. */
  method ToggleSubscription(st: Store, me: Id, channelId: string) returns (o: Outcome<Subscription>)
    requires st.Valid()
    modifies st
    ensures st.Valid()
    ensures channelId == "" ==> o == Throw(400, "Please provide a channelId") && unchanged(st)
    ensures channelId != "" && ParseObjectId(channelId).None? ==>
      o == Throw(400, "Invalid channelId provided") && unchanged(st)
    ensures ParseObjectId(channelId).Some? ==> (
      var c := ParseObjectId(channelId).value;
      st.subscriptions == ToggleWith(old(st.subscriptions), ById(me, c), me, c, old(st.nextId))
      && o.Replied? && (o.http == 200 <==> Count(old(st.subscriptions), ById(me, c)) > 0)
      && st.Snapshot() == old(st.Snapshot()).(subscriptions := st.subscriptions, nextId := st.nextId))
  {
    if channelId == "" {
      o := Throw(400, "Please provide a channelId");
      return;
    }
    match ParseObjectId(channelId)
    case None =>
      o := Throw(400, "Invalid channelId provided");
    case Some(c) =>
      o := ToggleOn(st, me, c, ById(me, c));
  }

  /** `toggleSubscription` with the lookup its comment describes: `{ channel, subscriber }`. */
  method ToggleSubscriptionByChannel(st: Store, me: Id, channelId: string) returns (o: Outcome<Subscription>)
    requires st.Valid()
    modifies st
    ensures st.Valid()
    ensures channelId == "" ==> o == Throw(400, "Please provide a channelId") && unchanged(st)
    ensures channelId != "" && ParseObjectId(channelId).None? ==>
      o == Throw(400, "Invalid channelId provided") && unchanged(st)
    ensures ParseObjectId(channelId).Some? ==> (
      var c := ParseObjectId(channelId).value;
      st.subscriptions == ToggleWith(old(st.subscriptions), ByChannel(me, c), me, c, old(st.nextId))
      && o.Replied? && (o.http == 200 <==> Subscribed(old(st.subscriptions), me, c))
      && st.Snapshot() == old(st.Snapshot()).(subscriptions := st.subscriptions, nextId := st.nextId))
  {
    if channelId == "" {
      o := Throw(400, "Please provide a channelId");
      return;
    }
    match ParseObjectId(channelId)
    case None =>
      o := Throw(400, "Invalid channelId provided");
    case Some(c) =>
      o := ToggleOn(st, me, c, ByChannel(me, c));
  }
}
