/** What single messages and single elements mean to the subscription and binding tracker
    (internal/analysis/subscriptions.go), stated without its events. */
module SubscriptionLaws {
  import opened Common
  import opened Model
  import opened Addresses
  import opened Subscriptions

  /** The tracked entry of a key. */
  function At(b: Book, k: Key): Option<Entry> { if k in b.entries then Some(b.entries[k]) else None }

  /** The last listed element with key `k`. */
  function LastListed(items: seq<Item>, k: Key): (r: Option<Item>)
    ensures r.Some? <==> Lists(items, k)
  {
    if items == [] then None
    else
      var front, x := items[..|items| - 1], items[|items| - 1];
      ListsMore(front, x, k);
      assert items == front + [x];
      if x.key == k then Some(x) else LastListed(front, k)
  }

  // ------------------------------------------------------------ one message

  predicate CreatesSubscriptions(m: Message) {
    || (&& m.functionSet == "NodeManagementSubscriptionData"
        && (m.cmdClassifier == "reply" || m.cmdClassifier == "notify"))
    || (m.functionSet == "NodeManagementSubscriptionRequestCall" && m.cmdClassifier == "call")
  }

  predicate DeletesSubscriptions(m: Message) {
    m.functionSet == "NodeManagementSubscriptionDeleteCall" && m.cmdClassifier == "call"
  }

  predicate CreatesBindings(m: Message) {
    || (&& m.functionSet == "NodeManagementBindingData"
        && (m.cmdClassifier == "reply" || m.cmdClassifier == "notify"))
    || (m.functionSet == "NodeManagementBindingRequestCall" && m.cmdClassifier == "call")
  }

  predicate DeletesBindings(m: Message) {
    m.functionSet == "NodeManagementBindingDeleteCall" && m.cmdClassifier == "call"
  }

  /** A listed key starts afresh with the last element that names it, active since this message. */
  function Created(before: Option<Entry>, items: seq<Item>, m: Message, k: Key): Option<Entry> {
    match LastListed(items, k)
    case Some(item) => Some(Entry(item, true, m.timestamp, None, None, 0, false, m.id))
    case None => before
  }

  /** A listed known key ends with this message, and keeps what it was otherwise. */
  function Deleted(before: Option<Entry>, items: seq<Item>, m: Message, k: Key): Option<Entry> {
    if before.Some? && Lists(items, k) then Some(before.value.(active := false, removedAt := Some(m.timestamp)))
    else before
  }

  /** Any notify about a function counts for an active subscription it matches. */
  function Noted(e: Option<Entry>, m: Message, k: Key): Option<Entry> {
    if e.Some? && e.value.active && m.cmdClassifier == "notify" && m.functionSet != "" && Matches(m, k)
    then Some(e.value.(lastNotifyAt := Some(m.timestamp), notifyCount := e.value.notifyCount + 1))
    else e
  }

  lemma {:induction false} CreatesAt(es: seq<Event>, items: seq<Item>, m: Message, k: Key)
    ensures At(Replay(es + Creates(items, m)), k) == Created(At(Replay(es), k), items, m, k)
  {
    if items == [] {
      assert es + Creates(items, m) == es;
    } else {
      var front, x := items[..|items| - 1], items[|items| - 1];
      CreatesAt(es, front, m, k);
      ReplayMore(es + Creates(front, m), Create(x, m.timestamp, m.id));
      assert es + Creates(items, m) == es + Creates(front, m) + [Create(x, m.timestamp, m.id)];
    }
  }

  lemma {:induction false} DeletesAt(es: seq<Event>, items: seq<Item>, m: Message, k: Key)
    ensures At(Replay(es + Deletes(items, m)), k) == Deleted(At(Replay(es), k), items, m, k)
  {
    if items == [] {
      assert es + Deletes(items, m) == es;
    } else {
      var front, x := items[..|items| - 1], items[|items| - 1];
      DeletesAt(es, front, m, k);
      ReplayMore(es + Deletes(front, m), Delete(x.key, m.timestamp));
      assert es + Deletes(items, m) == es + Deletes(front, m) + [Delete(x.key, m.timestamp)];
      assert items == front + [x];
      ListsMore(front, x, k);
    }
  }

  /** A message after its elements: what its function set and classifier make of a subscription. */
  function SubscriptionAfter(before: Option<Entry>, t: Traced, k: Key): Option<Entry> {
    if CreatesSubscriptions(t.msg) then Created(before, t.subs, t.msg, k)
    else if DeletesSubscriptions(t.msg) then Deleted(before, t.subs, t.msg, k)
    else before
  }

  lemma ChangesAt(es: seq<Event>, t: Traced, k: Key)
    ensures At(Replay(es + SubscriptionChanges(t)), k) == SubscriptionAfter(At(Replay(es), k), t, k)
  {
    CreatesAt(es, t.subs, t.msg, k);
    DeletesAt(es, t.subs, t.msg, k);
    assert es + [] == es;
  }

  lemma NotifyAt(es: seq<Event>, m: Message, k: Key)
    requires m.cmdClassifier == "notify" && m.functionSet != ""
    ensures At(Replay(es + [Notify(m)]), k) == Noted(At(Replay(es), k), m, k)
  {
    ReplayMore(es, Notify(m));
  }

  lemma EventsAt(es: seq<Event>, t: Traced, k: Key)
    ensures At(Replay(es + SubscriptionEvents(t)), k) == Noted(At(Replay(es + SubscriptionChanges(t)), k), t.msg, k)
  {
    var changes, m := SubscriptionChanges(t), t.msg;
    if m.cmdClassifier == "notify" && m.functionSet != "" {
      Regroup(es, changes, [Notify(m)]);
      NotifyAt(es + changes, m, k);
    } else {
      assert changes + [] == changes;
    }
  }

  /** One more message changes the tracked subscription of a key in exactly this way: a snapshot or a
      request creates the listed keys, a delete call ends the listed known ones, and then a notify
      counts for the active ones it matches. All others stay as they are. */
  lemma MessageToSubscription(log: seq<Traced>, t: Traced, k: Key)
    ensures At(Replay(SubscriptionTimeline(log + [t])), k)
         == Noted(SubscriptionAfter(At(Replay(SubscriptionTimeline(log)), k), t, k), t.msg, k)
  {
    TimelineMore(log, t);
    ChangesAt(SubscriptionTimeline(log), t, k);
    EventsAt(SubscriptionTimeline(log), t, k);
  }

  /** A delete call leaves active exactly what was active and is not listed; listed known keys carry
      the time of the call, and other keys stay as they are. */
  lemma DeleteCallEnds(log: seq<Traced>, t: Traced, k: Key)
    requires DeletesSubscriptions(t.msg)
    ensures var before, after := Replay(SubscriptionTimeline(log)), Replay(SubscriptionTimeline(log + [t]));
            && (ActiveIn(after, k) <==> ActiveIn(before, k) && !Lists(t.subs, k))
            && (Lists(t.subs, k) && k in before.entries ==>
                  k in after.entries && after.entries[k].removedAt == Some(t.msg.timestamp))
            && (!Lists(t.subs, k) || k !in before.entries ==> At(after, k) == At(before, k))
  {
    MessageToSubscription(log, t, k);
  }

  /** The same for bindings, which no notify touches. */
  lemma MessageToBinding(log: seq<Traced>, t: Traced, k: Key)
    ensures var before := At(Replay(BindingTimeline(log)), k);
            At(Replay(BindingTimeline(log + [t])), k)
            == if CreatesBindings(t.msg) then Created(before, t.binds, t.msg, k)
               else if DeletesBindings(t.msg) then Deleted(before, t.binds, t.msg, k)
               else before
  {
    var es := BindingTimeline(log);
    assert (log + [t])[..|log|] == log;
    BindingsAt(es, t, k);
  }

  lemma BindingsAt(es: seq<Event>, t: Traced, k: Key)
    ensures var before := At(Replay(es), k);
            At(Replay(es + BindingEvents(t)), k)
            == if CreatesBindings(t.msg) then Created(before, t.binds, t.msg, k)
               else if DeletesBindings(t.msg) then Deleted(before, t.binds, t.msg, k)
               else before
  {
    CreatesAt(es, t.binds, t.msg, k);
    DeletesAt(es, t.binds, t.msg, k);
    assert es + [] == es;
  }

  // ------------------------------------------------------------ one element

  /** The same feature address, where an address without a feature stands for no feature at all. */
  predicate SameFeature(a: Address, b: Address) {
    a.feature == b.feature && (a.feature.Some? ==> a.entity == b.entity)
  }

  /** Two elements have the same key exactly if their clients and their servers agree in device and
      feature address: no two different relations share an entry. */
  lemma KeysIdentify(id: string, featureType: string, client: Address, server: Address,
                     id': string, featureType': string, client': Address, server': Address)
    ensures ItemOf(id, featureType, client, server).key == ItemOf(id', featureType', client', server').key
            <==> client.device == client'.device && SameFeature(client, client')
                 && server.device == server'.device && SameFeature(server, server')
    ensures ItemOf(id, featureType, client, server).id == id
    ensures ItemOf(id, featureType, client, server).serverFeatureType == featureType
  {
    FeatureIdentifies(client, client');
    FeatureIdentifies(server, server');
  }

  lemma FeatureIdentifies(a: Address, b: Address)
    ensures EntryFeature(a) == EntryFeature(b) <==> SameFeature(a, b)
  {
    if a.feature.Some? && b.feature.Some? {
      var p, q := a.entity + [a.feature.value], b.entity + [b.feature.value];
      DottedInjective(p, q);
      assert p[..|p| - 1] == a.entity && q[..|q| - 1] == b.entity;
    } else if a.feature.Some? {
      DottedNonEmpty(a.entity + [a.feature.value]);
    } else if b.feature.Some? {
      DottedNonEmpty(b.entity + [b.feature.value]);
    }
  }

  // -------------------------------------------------------------- staleness

  /** A subscription is reported stale exactly if it is active, the threshold is positive, and more
      than the threshold lies between the last message of the log and its last matching notify, or its
      creation if there was none. */
  lemma StaleExactly(log: seq<Traced>, threshold: int, i: nat)
    requires i < |SubscriptionReport(log, threshold)|
    ensures var e := SubscriptionReport(log, threshold)[i];
            && log != []
            && (e.stale <==>
                  && e.active && threshold > 0
                  && (e.lastNotifyAt.None? ==> log[|log| - 1].msg.timestamp - e.createdAt > threshold)
                  && (e.lastNotifyAt.Some? ==> log[|log| - 1].msg.timestamp - e.lastNotifyAt.value > threshold))
  {
  }
}
