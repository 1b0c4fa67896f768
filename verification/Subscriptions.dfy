/** The subscription and binding tracker (internal/analysis/subscriptions.go) and the history it
    must report. */
module Subscriptions {
  import opened Common
  import opened Model
  import opened Addresses

  // -------------------------------------------------------------- data model

  datatype Key = Key(clientDevice: string, clientFeature: string, serverDevice: string, serverFeature: string)

  /** A decoded subscription or binding element of a SPINE payload. */
  datatype Item = Item(id: string, key: Key, serverFeatureType: string)

  /** A tracked subscription. For a binding the notify fields keep their zero values. */
  datatype Entry = Entry(item: Item, active: bool, createdAt: int, removedAt: Option<int>,
                         lastNotifyAt: Option<int>, notifyCount: nat, stale: bool, messageId: int)

  /** A message with the subscription and binding elements its payload decodes to. */
  datatype Traced = Traced(msg: Message, subs: seq<Item>, binds: seq<Item>)

  /** internal/analysis/subscriptions.go: extractSubscriptionData, for one decoded element. */
  function ItemOf(id: string, featureType: string, client: Address, server: Address): Item {
    Item(id, Key(client.device, EntryFeature(client), server.device, EntryFeature(server)), featureType)
  }

  function NewEntry(item: Item, at: int, messageId: int): Entry {
    Entry(item, true, at, None, None, 0, false, messageId)
  }

  /** internal/analysis/subscriptions.go: matchesSubscriptionNotify. */
  predicate Matches(m: Message, key: Key) {
    && m.deviceSource == key.serverDevice && m.deviceDest == key.clientDevice
    && (key.serverFeature == "" || MessageFeature(m.entitySource, m.featureSource) == key.serverFeature)
  }

  /** With both addresses given as SPINE addresses, a notify matches exactly when the devices agree
      and, unless the subscription names no server feature, entity list and feature agree. */
  lemma MatchesExactly(m: Message, source: Address, id: string, featureType: string, client: Address, server: Address)
    requires m.deviceSource == source.device
    requires m.entitySource == Dotted(source.entity) && m.featureSource == FeatureAddrString(source.feature)
    ensures Matches(m, ItemOf(id, featureType, client, server).key) <==>
              && source.device == server.device && m.deviceDest == client.device
              && (server.feature.None? || (source.feature == server.feature && source.entity == server.entity))
  {
    if server.feature.Some? {
      PrintersAgree(source, server);
      DottedNonEmpty(server.entity + [server.feature.value]);
    }
  }

  // ------------------------------------------------------------------ events

  /** What a message does to one of the two ledgers. */
  datatype Event =
    | Create(item: Item, at: int, messageId: int)
    | Delete(key: Key, time: int)
    | Notify(msg: Message)

  function Creates(items: seq<Item>, m: Message): seq<Event> {
    seq(|items|, i requires 0 <= i < |items| => Create(items[i], m.timestamp, m.id))
  }

  function Deletes(items: seq<Item>, m: Message): seq<Event> {
    seq(|items|, i requires 0 <= i < |items| => Delete(items[i].key, m.timestamp))
  }

  function SubscriptionChanges(t: Traced): seq<Event> {
    var m := t.msg;
    if m.functionSet == "NodeManagementSubscriptionData" && m.cmdClassifier in ["reply", "notify"] then
      Creates(t.subs, m)
    else if m.functionSet == "NodeManagementSubscriptionRequestCall" && m.cmdClassifier == "call" then
      Creates(t.subs, m)
    else if m.functionSet == "NodeManagementSubscriptionDeleteCall" && m.cmdClassifier == "call" then Deletes(t.subs, m)
    else []
  }

  function SubscriptionEvents(t: Traced): seq<Event> {
    var m := t.msg;
    SubscriptionChanges(t) + (if m.cmdClassifier == "notify" && m.functionSet != "" then [Notify(m)] else [])
  }

  function BindingEvents(t: Traced): seq<Event> {
    var m := t.msg;
    if m.functionSet == "NodeManagementBindingData" && m.cmdClassifier in ["reply", "notify"] then Creates(t.binds, m)
    else if m.functionSet == "NodeManagementBindingRequestCall" && m.cmdClassifier == "call" then Creates(t.binds, m)
    else if m.functionSet == "NodeManagementBindingDeleteCall" && m.cmdClassifier == "call" then Deletes(t.binds, m)
    else []
  }

  /** All subscription events of a log, in order. */
  function SubscriptionTimeline(log: seq<Traced>): seq<Event> {
    if log == [] then [] else SubscriptionTimeline(log[..|log| - 1]) + SubscriptionEvents(log[|log| - 1])
  }

  function BindingTimeline(log: seq<Traced>): seq<Event> {
    if log == [] then [] else BindingTimeline(log[..|log| - 1]) + BindingEvents(log[|log| - 1])
  }

  // ------------------------------------------------------------------ ledger

  /** A map of entries and the order in which their keys first appeared. */
  datatype Book = Book(entries: map<Key, Entry>, order: seq<Key>)

  function Notified(e: Entry, m: Message, key: Key): Entry {
    if e.active && Matches(m, key) then e.(lastNotifyAt := Some(m.timestamp), notifyCount := e.notifyCount + 1) else e
  }

  function Apply(b: Book, e: Event): Book {
    match e
    case Create(item, at, messageId) =>
      Book(b.entries[item.key := NewEntry(item, at, messageId)],
           if item.key in b.entries then b.order else b.order + [item.key])
    case Delete(key, time) =>
      if key !in b.entries then b
      else b.(entries := b.entries[key := b.entries[key].(active := false, removedAt := Some(time))])
    case Notify(m) =>
      b.(entries := map k | k in b.entries :: Notified(b.entries[k], m, k))
  }

  function Replay(es: seq<Event>): Book {
    if es == [] then Book(map[], []) else Apply(Replay(es[..|es| - 1]), es[|es| - 1])
  }

  lemma ReplayMore(es: seq<Event>, e: Event)
    ensures Replay(es + [e]) == Apply(Replay(es), e)
  {
    assert (es + [e])[..|es|] == es;
  }

  /** The map and order list of one kind of relation, updated in place. */
  class Ledger {
    var entries: map<Key, Entry>
    var order: seq<Key>

    constructor ()
      ensures View() == Book(map[], [])
    {
      entries, order := map[], [];
    }

    function View(): Book
      reads this
    {
      Book(entries, order)
    }

    /** Replaces or adds the entry of the item's key. */
    method CreateOne(item: Item, m: Message)
      modifies this
      ensures View() == Apply(old(View()), Create(item, m.timestamp, m.id))
    {
      var key := item.key;
      if key !in entries {
        order := order + [key];
      }
      entries := entries[key := NewEntry(item, m.timestamp, m.id)];
    }

    method CreateAll(items: seq<Item>, m: Message, ghost es: seq<Event>)
      requires View() == Replay(es)
      modifies this
      ensures View() == Replay(es + Creates(items, m))
    {
      assert es + Creates(items[..0], m) == es;
      for i := 0 to |items|
        invariant View() == Replay(es + Creates(items[..i], m))
      {
        ReplayMore(es + Creates(items[..i], m), Create(items[i], m.timestamp, m.id));
        assert es + Creates(items[..i + 1], m) == es + Creates(items[..i], m) + [Create(items[i], m.timestamp, m.id)];
        CreateOne(items[i], m);
      }
      assert items[..|items|] == items;
    }

    /** Deactivates the entry of the key, if there is one. */
    method DeleteOne(key: Key, time: int)
      modifies this
      ensures View() == Apply(old(View()), Delete(key, time))
    {
      if key in entries {
        entries := entries[key := entries[key].(active := false, removedAt := Some(time))];
      }
    }

    method DeleteAll(items: seq<Item>, m: Message, ghost es: seq<Event>)
      requires View() == Replay(es)
      modifies this
      ensures View() == Replay(es + Deletes(items, m))
    {
      assert es + Deletes(items[..0], m) == es;
      for i := 0 to |items|
        invariant View() == Replay(es + Deletes(items[..i], m))
      {
        ReplayMore(es + Deletes(items[..i], m), Delete(items[i].key, m.timestamp));
        assert es + Deletes(items[..i + 1], m) == es + Deletes(items[..i], m) + [Delete(items[i].key, m.timestamp)];
        DeleteOne(items[i].key, m.timestamp);
      }
      assert items[..|items|] == items;
    }

    /** Visits every entry once, in an arbitrary order, and counts the notify where it matches. */
    method NotifyAll(m: Message)
      modifies this
      ensures View() == Apply(old(View()), Notify(m))
    {
      ghost var before := entries;
      var pending := entries.Keys;
      while pending != {}
        invariant pending <= before.Keys == entries.Keys && order == old(order)
        invariant forall k :: k in before ==>
                    entries[k] == if k in pending then before[k] else Notified(before[k], m, k)
        decreases |pending|
      {
        var key :| key in pending;
        pending := pending - {key};
        var sub := entries[key];
        if !sub.active {
          continue;
        }
        if Matches(m, key) {
          entries := entries[key := sub.(lastNotifyAt := Some(m.timestamp), notifyCount := sub.notifyCount + 1)];
        }
      }
    }
  }

  // ----------------------------------------------------------------- tracker

  /** Whether an entry had no notify for longer than the threshold at the end of the log. */
  predicate IsStale(e: Entry, threshold: int, end: int) {
    e.active && threshold > 0 && end - e.lastNotifyAt.GetOr(e.createdAt) > threshold
  }

  /** The entries in the order of first appearance. */
  function Listing(b: Book): (r: seq<Entry>)
    requires forall k :: k in b.order ==> k in b.entries
    ensures |r| == |b.order|
  {
    seq(|b.order|, i requires 0 <= i < |b.order| => b.entries[b.order[i]])
  }

  function EndOf(log: seq<Traced>): int {
    if log == [] then 0 else log[|log| - 1].msg.timestamp
  }

  lemma {:induction false} OrderListsKeys(es: seq<Event>)
    ensures var b := Replay(es); NoRepeats(b.order) && forall k :: k in b.order <==> k in b.entries
  {
    if es != [] {
      OrderListsKeys(es[..|es| - 1]);
    }
  }

  function WithStaleness(entries: seq<Entry>, threshold: int, end: int): seq<Entry> {
    seq(|entries|, i requires 0 <= i < |entries| => entries[i].(stale := IsStale(entries[i], threshold, end)))
  }

  function SubscriptionReport(log: seq<Traced>, threshold: int): seq<Entry> {
    OrderListsKeys(SubscriptionTimeline(log));
    WithStaleness(Listing(Replay(SubscriptionTimeline(log))), threshold, EndOf(log))
  }

  function BindingReport(log: seq<Traced>): seq<Entry> {
    OrderListsKeys(BindingTimeline(log));
    Listing(Replay(BindingTimeline(log)))
  }

  /** internal/analysis/subscriptions.go: TrackSubscriptionsAndBindings. */
  method TrackSubscriptionsAndBindings(log: seq<Traced>, threshold: int)
    returns (subscriptions: seq<Entry>, bindings: seq<Entry>)
    ensures subscriptions == SubscriptionReport(log, threshold)
    ensures bindings == BindingReport(log)
  {
    var subs := new Ledger();
    var binds := new Ledger();
    for i := 0 to |log|
      invariant fresh(subs) && fresh(binds) && subs != binds
      invariant subs.View() == Replay(SubscriptionTimeline(log[..i]))
      invariant binds.View() == Replay(BindingTimeline(log[..i]))
    {
      var t := log[i];
      assert log[..i + 1][..i] == log[..i];
      UpdateSubscriptions(t, subs, SubscriptionTimeline(log[..i]));
      UpdateBindings(t, binds, BindingTimeline(log[..i]));
    }
    assert log[..|log|] == log;
    OrderListsKeys(SubscriptionTimeline(log));
    OrderListsKeys(BindingTimeline(log));
    subscriptions := ListSubscriptions(subs, threshold, EndOf(log));
    bindings := ListBindings(binds);
  }

  /** The final pass over the subscriptions: staleness, in the order of first appearance. */
  method ListSubscriptions(subs: Ledger, threshold: int, end: int) returns (r: seq<Entry>)
    requires forall k :: k in subs.order ==> k in subs.entries
    ensures r == WithStaleness(Listing(subs.View()), threshold, end)
  {
    r := [];
    for i := 0 to |subs.order|
      invariant r == WithStaleness(Listing(subs.View()), threshold, end)[..i]
    {
      var sub := subs.entries[subs.order[i]];
      r := r + [sub.(stale := IsStale(sub, threshold, end))];
    }
  }

  method ListBindings(binds: Ledger) returns (r: seq<Entry>)
    requires forall k :: k in binds.order ==> k in binds.entries
    ensures r == Listing(binds.View())
  {
    r := [];
    for i := 0 to |binds.order|
      invariant r == Listing(binds.View())[..i]
    {
      r := r + [binds.entries[binds.order[i]]];
    }
  }

  /** The tracker's loop body for subscriptions. */
  method UpdateSubscriptions(t: Traced, subs: Ledger, ghost es: seq<Event>)
    requires subs.View() == Replay(es)
    modifies subs
    ensures subs.View() == Replay(es + SubscriptionEvents(t))
  {
    var m := t.msg;
    ChangeSubscriptions(t, subs, es);
    ghost var done := es + SubscriptionChanges(t);
    if m.cmdClassifier == "notify" && m.functionSet != "" {
      ReplayMore(done, Notify(m));
      subs.NotifyAll(m);
      Regroup(es, SubscriptionChanges(t), [Notify(m)]);
    } else {
      assert SubscriptionChanges(t) + [] == SubscriptionChanges(t);
    }
  }

  /** Its switch over the function sets. */
  method ChangeSubscriptions(t: Traced, subs: Ledger, ghost es: seq<Event>)
    requires subs.View() == Replay(es)
    modifies subs
    ensures subs.View() == Replay(es + SubscriptionChanges(t))
  {
    var m := t.msg;
    assert es + [] == es;
    match m.functionSet {
      case "NodeManagementSubscriptionData" =>
        if m.cmdClassifier == "reply" || m.cmdClassifier == "notify" {
          subs.CreateAll(t.subs, m, es);
        }
      case "NodeManagementSubscriptionRequestCall" =>
        if m.cmdClassifier == "call" {
          subs.CreateAll(t.subs, m, es);
        }
      case "NodeManagementSubscriptionDeleteCall" =>
        if m.cmdClassifier == "call" {
          subs.DeleteAll(t.subs, m, es);
        }
      case _ =>
    }
  }

  /** The binding branches of the tracker's loop body. */
  method UpdateBindings(t: Traced, binds: Ledger, ghost es: seq<Event>)
    requires binds.View() == Replay(es)
    modifies binds
    ensures binds.View() == Replay(es + BindingEvents(t))
  {
    var m := t.msg;
    assert es + [] == es;
    match m.functionSet {
      case "NodeManagementBindingData" =>
        if m.cmdClassifier == "reply" || m.cmdClassifier == "notify" {
          binds.CreateAll(t.binds, m, es);
        }
      case "NodeManagementBindingRequestCall" =>
        if m.cmdClassifier == "call" {
          binds.CreateAll(t.binds, m, es);
        }
      case "NodeManagementBindingDeleteCall" =>
        if m.cmdClassifier == "call" {
          binds.DeleteAll(t.binds, m, es);
        }
      case _ =>
    }
  }

  // ----------------------------------------------------------------- history

  /** Event `c` is the last one that creates key `k`. */
  ghost predicate LastCreate(es: seq<Event>, k: Key, c: nat) {
    && c < |es| && es[c].Create? && es[c].item.key == k
    && forall i :: c < i < |es| ==> !(es[i].Create? && es[i].item.key == k)
  }

  predicate Deleting(e: Event, k: Key) { e.Delete? && e.key == k }

  /** The times of the events that delete `k`. */
  function DeleteTimes(es: seq<Event>, k: Key): (r: seq<int>)
    ensures r == [] <==> forall i :: 0 <= i < |es| ==> !Deleting(es[i], k)
  {
    if es == [] then []
    else
      var e := es[|es| - 1];
      DeleteTimes(es[..|es| - 1], k) + (if Deleting(e, k) then [e.time] else [])
  }

  /** The number of events before the first one that deletes `k`. */
  function FirstDelete(es: seq<Event>, k: Key): (n: nat)
    ensures n <= |es| && (n < |es| ==> Deleting(es[n], k))
    ensures forall i :: 0 <= i < n ==> !Deleting(es[i], k)
  {
    if es == [] then 0
    else
      var n := FirstDelete(es[..|es| - 1], k);
      if n < |es| - 1 || Deleting(es[|es| - 1], k) then n else |es|
  }

  /** The times of the notifies that match `k`. */
  function NotifyTimes(es: seq<Event>, k: Key): seq<int> {
    if es == [] then []
    else
      var e := es[|es| - 1];
      NotifyTimes(es[..|es| - 1], k) + (if e.Notify? && Matches(e.msg, k) then [e.msg.timestamp] else [])
  }

  /** What the history says about key `k` after the event `c` that created it last: it is active
      without a later delete, was removed by the last later delete, and was notified by the
      matching notifies up to the first later delete. */
  function Account(c: Event, after: seq<Event>, k: Key): Entry
    requires c.Create?
  {
    var removals := DeleteTimes(after, k);
    var notes := NotifyTimes(after[..FirstDelete(after, k)], k);
    Entry(c.item, removals == [], c.at, LastOf(removals), LastOf(notes), |notes|, false, c.messageId)
  }

  lemma AccountMore(c: Event, after: seq<Event>, e: Event, k: Key)
    requires c.Create? && !(e.Create? && e.item.key == k)
    ensures Account(c, after + [e], k) ==
              match e
              case Create(_, _, _) => Account(c, after, k)
              case Delete(key, time) =>
                if key == k then Account(c, after, k).(active := false, removedAt := Some(time))
                else Account(c, after, k)
              case Notify(m) => Notified(Account(c, after, k), m, k)
  {
    TimesMore(after, e, k);
    var n := FirstDelete(after, k);
    var seen := after[..n];
    if n == |after| {
      assert seen == after;
      if Deleting(e, k) {
        assert (after + [e])[..n] == after;
      } else {
        assert (after + [e])[..|after| + 1] == after + [e];
      }
    } else {
      assert (after + [e])[..n] == seen;
    }
  }

  lemma TimesMore(es: seq<Event>, e: Event, k: Key)
    ensures DeleteTimes(es + [e], k) == DeleteTimes(es, k) + (if Deleting(e, k) then [e.time] else [])
    ensures NotifyTimes(es + [e], k) ==
              NotifyTimes(es, k) + (if e.Notify? && Matches(e.msg, k) then [e.msg.timestamp] else [])
    ensures var n := FirstDelete(es, k);
            FirstDelete(es + [e], k) == if n < |es| || Deleting(e, k) then n else |es| + 1
  {
    assert (es + [e])[..|es|] == es;
  }

  lemma HistoryStep(front: seq<Event>, e: Event, k: Key, c: nat)
    requires !(e.Create? && e.item.key == k) && LastCreate(front, k, c) && k in Replay(front).entries
    requires Replay(front).entries[k] == Account(front[c], front[c + 1..], k)
    ensures k in Replay(front + [e]).entries
    ensures Replay(front + [e]).entries[k] == Account(front[c], front[c + 1..] + [e], k)
  {
    ReplayMore(front, e);
    AccountMore(front[c], front[c + 1..], e, k);
  }

  lemma LastCreateMore(front: seq<Event>, e: Event, k: Key, c: nat)
    ensures LastCreate(front + [e], k, c) <==>
              if e.Create? && e.item.key == k then c == |front| else LastCreate(front, k, c)
  {
    var es := front + [e];
    assert es[|front|] == e;
    assert forall i :: 0 <= i < |front| ==> es[i] == front[i];
  }

  /** A key is in the ledger exactly when some event created it. */
  lemma {:induction false} PresentIffCreated(es: seq<Event>, k: Key)
    ensures k in Replay(es).entries <==> exists c: nat :: LastCreate(es, k, c)
  {
    if es != [] {
      var front, e := es[..|es| - 1], es[|es| - 1];
      assert es == front + [e];
      PresentIffCreated(front, k);
      forall c: nat
        ensures LastCreate(es, k, c) <==>
                  if e.Create? && e.item.key == k then c == |front| else LastCreate(front, k, c)
      {
        LastCreateMore(front, e, k, c);
      }
      assert e.Create? && e.item.key == k ==> LastCreate(es, k, |front|);
    }
  }

  /** The entry of a key is the account of what happened since the last event that created it. */
  lemma {:induction false} History(es: seq<Event>, k: Key, c: nat)
    requires LastCreate(es, k, c)
    ensures k in Replay(es).entries
    ensures Replay(es).entries[k] == Account(es[c], es[c + 1..], k)
  {
    var front, e := es[..|es| - 1], es[|es| - 1];
    assert es == front + [e];
    LastCreateMore(front, e, k, c);
    if e.Create? && e.item.key == k {
      assert es[c + 1..] == [];
    } else {
      History(front, k, c);
      HistoryStep(front, e, k, c);
      assert es[c + 1..] == front[c + 1..] + [e];
    }
  }

  /** The keys of the creating events, in order. */
  function CreatedKeys(es: seq<Event>): seq<Key> {
    if es == [] then []
    else CreatedKeys(es[..|es| - 1]) + (if es[|es| - 1].Create? then [es[|es| - 1].item.key] else [])
  }

  /** The order list holds the created keys in the order of their first creation, each once. */
  lemma {:induction false} OrderIsFirstAppearance(es: seq<Event>)
    ensures Replay(es).order == Distinct(CreatedKeys(es))
  {
    OrderListsKeys(es);
    if es != [] {
      var front, e := es[..|es| - 1], es[|es| - 1];
      OrderIsFirstAppearance(front);
      OrderListsKeys(front);
      if e.Create? {
        var keys := CreatedKeys(es);
        assert keys[..|keys| - 1] == CreatedKeys(front);
      } else {
        assert CreatedKeys(front) + [] == CreatedKeys(front);
      }
    }
  }

  /** The reported subscriptions: one per created key in the order of first creation, each with the
      account of its history and its staleness at the end of the log. */
  lemma ReportIsHistory(log: seq<Traced>, threshold: int, i: nat)
    requires i < |SubscriptionReport(log, threshold)|
    ensures var es := SubscriptionTimeline(log);
            var keys := Distinct(CreatedKeys(es));
            && |keys| == |SubscriptionReport(log, threshold)|
            && exists c: nat :: LastCreate(es, keys[i], c)
                 && var e := Account(es[c], es[c + 1..], keys[i]);
                    SubscriptionReport(log, threshold)[i] == e.(stale := IsStale(e, threshold, EndOf(log)))
  {
    var es := SubscriptionTimeline(log);
    OrderIsFirstAppearance(es);
    OrderListsKeys(es);
    var k := Replay(es).order[i];
    PresentIffCreated(es, k);
    var c: nat :| LastCreate(es, k, c);
    History(es, k, c);
  }

  /** The reported bindings, likewise. */
  lemma BindingReportIsHistory(log: seq<Traced>, i: nat)
    requires i < |BindingReport(log)|
    ensures var es := BindingTimeline(log);
            var keys := Distinct(CreatedKeys(es));
            && |keys| == |BindingReport(log)|
            && exists c: nat :: LastCreate(es, keys[i], c)
                 && BindingReport(log)[i] == Account(es[c], es[c + 1..], keys[i])
  {
    var es := BindingTimeline(log);
    OrderIsFirstAppearance(es);
    OrderListsKeys(es);
    var k := Replay(es).order[i];
    PresentIffCreated(es, k);
    var c: nat :| LastCreate(es, k, c);
    History(es, k, c);
  }

  // --------------------------------------------------------------- snapshots

  predicate ActiveIn(b: Book, k: Key) { k in b.entries && b.entries[k].active }

  predicate Lists(items: seq<Item>, k: Key) { exists i :: 0 <= i < |items| && items[i].key == k }

  /** A message that carries a snapshot of the subscriptions. */
  predicate IsSnapshot(m: Message) {
    m.functionSet == "NodeManagementSubscriptionData" && (m.cmdClassifier == "reply" || m.cmdClassifier == "notify")
  }

  /** Creating elements activates their keys and leaves the other keys as they are. */
  lemma {:induction false} CreatesActivate(es: seq<Event>, items: seq<Item>, m: Message, k: Key)
    ensures ActiveIn(Replay(es + Creates(items, m)), k) <==> Lists(items, k) || ActiveIn(Replay(es), k)
  {
    if items == [] {
      assert es + Creates(items, m) == es;
    } else {
      var front, x := items[..|items| - 1], items[|items| - 1];
      CreatesActivate(es, front, m, k);
      ReplayMore(es + Creates(front, m), Create(x, m.timestamp, m.id));
      assert es + Creates(items, m) == es + Creates(front, m) + [Create(x, m.timestamp, m.id)];
      assert items == front + [x];
      ListsMore(front, x, k);
    }
  }

  lemma ListsMore(items: seq<Item>, x: Item, k: Key)
    ensures Lists(items + [x], k) <==> Lists(items, k) || x.key == k
  {
    var all := items + [x];
    assert all[|items|] == x && forall i :: 0 <= i < |items| ==> all[i] == items[i];
  }

  lemma SnapshotChanges(t: Traced)
    requires IsSnapshot(t.msg)
    ensures SubscriptionChanges(t) == Creates(t.subs, t.msg)
  {
  }

  /** A notify activates and deactivates nothing. */
  lemma NotifyKeepsActive(es: seq<Event>, m: Message, k: Key)
    ensures ActiveIn(Replay(es + [Notify(m)]), k) <==> ActiveIn(Replay(es), k)
  {
    ReplayMore(es, Notify(m));
  }

  lemma TimelineMore(log: seq<Traced>, t: Traced)
    ensures SubscriptionTimeline(log + [t]) == SubscriptionTimeline(log) + SubscriptionEvents(t)
  {
    assert (log + [t])[..|log|] == log;
  }

  /** The keys active after a snapshot: the listed ones, and all that were active before. */
  lemma SnapshotActivates(log: seq<Traced>, t: Traced, k: Key)
    requires IsSnapshot(t.msg)
    ensures ActiveIn(Replay(SubscriptionTimeline(log + [t])), k)
            <==> Lists(t.subs, k) || ActiveIn(Replay(SubscriptionTimeline(log)), k)
  {
    var es, changes := SubscriptionTimeline(log), Creates(t.subs, t.msg);
    TimelineMore(log, t);
    SnapshotChanges(t);
    CreatesActivate(es, t.subs, t.msg, k);
    NotifyKeepsActive(es + changes, t.msg, k);
    Regroup(es, changes, [Notify(t.msg)]);
    Regroup(es, changes, []);
    assert es + changes + [] == es + changes;
  }

  /** Among the keys a snapshot is about (those `concerned`, whichever a device pair is taken to mean),
      exactly the listed ones are active after it, as a replacement would have it, if and only if it
      lists every key of them that was active before. */
  lemma SnapshotReplacesExactly(log: seq<Traced>, t: Traced, concerned: Key -> bool)
    requires IsSnapshot(t.msg)
    ensures var before, after := Replay(SubscriptionTimeline(log)), Replay(SubscriptionTimeline(log + [t]));
            (forall k :: concerned(k) ==> (ActiveIn(after, k) <==> Lists(t.subs, k)))
            <==> (forall k :: concerned(k) && ActiveIn(before, k) ==> Lists(t.subs, k))
  {
    var before, after := Replay(SubscriptionTimeline(log)), Replay(SubscriptionTimeline(log + [t]));
    forall k ensures ActiveIn(after, k) <==> Lists(t.subs, k) || ActiveIn(before, k) {
      SnapshotActivates(log, t, k);
    }
  }

  /** A request subscribes one key, and a snapshot of the same device pair lists none: the key stays
      active. */
  lemma MissingKeyStays(k: Key, m: Message)
    ensures var request := Traced(m.(functionSet := "NodeManagementSubscriptionRequestCall", cmdClassifier := "call",
                                     deviceSource := k.clientDevice, deviceDest := k.serverDevice),
                                  [Item("", k, "")], []);
            var snapshot := Traced(m.(functionSet := "NodeManagementSubscriptionData", cmdClassifier := "reply",
                                      deviceSource := k.serverDevice, deviceDest := k.clientDevice), [], []);
            IsSnapshot(snapshot.msg) && ActiveIn(Replay(SubscriptionTimeline([request] + [snapshot])), k)
  {
    var call := m.(functionSet := "NodeManagementSubscriptionRequestCall", cmdClassifier := "call",
                   deviceSource := k.clientDevice, deviceDest := k.serverDevice);
    var reply := m.(functionSet := "NodeManagementSubscriptionData", cmdClassifier := "reply",
                    deviceSource := k.serverDevice, deviceDest := k.clientDevice);
    var request, snapshot := Traced(call, [Item("", k, "")], []), Traced(reply, [], []);
    SnapshotActivates([request], snapshot, k);
    CreatesActivate([], request.subs, call, k);
    assert request.subs[0].key == k;
    RequestTimeline(request);
  }

  lemma RequestTimeline(t: Traced)
    requires t.msg.functionSet == "NodeManagementSubscriptionRequestCall" && t.msg.cmdClassifier == "call"
    ensures SubscriptionTimeline([t]) == [] + Creates(t.subs, t.msg)
  {
    assert SubscriptionTimeline([t][..0]) == [];
  }

  /** Binding elements never reach the subscriptions: logs that differ in them only have the same
      subscription events. */
  lemma {:induction false} SubscriptionsIgnoreBindings(log: seq<Traced>, other: seq<Traced>)
    requires |log| == |other| && forall i :: 0 <= i < |log| ==> other[i] == log[i].(binds := other[i].binds)
    ensures SubscriptionTimeline(log) == SubscriptionTimeline(other)
  {
    if log != [] {
      SubscriptionsIgnoreBindings(log[..|log| - 1], other[..|log| - 1]);
    }
  }

  /** Nor do subscription elements reach the bindings. */
  lemma {:induction false} BindingsIgnoreSubscriptions(log: seq<Traced>, other: seq<Traced>)
    requires |log| == |other| && forall i :: 0 <= i < |log| ==> other[i] == log[i].(subs := other[i].subs)
    ensures BindingTimeline(log) == BindingTimeline(other)
  {
    if log != [] {
      BindingsIgnoreSubscriptions(log[..|log| - 1], other[..|log| - 1]);
    }
  }
}
