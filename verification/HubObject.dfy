/** The hub's methods (internal/api/hub.go) as methods of an object, each holding the lock it takes
    throughout, and the proof that each of them is a run of the steps of the interleaved system. */
module HubObject {
  import opened Common
  import opened Hub

  /** What BroadcastEvent's select does to a client's channel. */
  function Offered(x: ClientState, b: nat, data: Data): ClientState {
    var taken := |x.queue| < CLIENT_BUFFER_SIZE;
    x.(queue := if taken then x.queue + [data] else x.queue,
       offers := x.offers + [Offer(b, data, taken, |x.queue|)])
  }

  /** A client after its channel was closed (if it was still registered) and its pump has ended. */
  function Ended(x: ClientState, close: bool, side: Side): ClientState {
    var y := if close then x.(closed := true, closes := x.closes + 1) else x;
    if side == Writing then y.(writer := Gone) else y.(reader := Gone)
  }

  class HubServer {
    var clients: set<Client>
    var channels: map<Client, ClientState>

    constructor ()
      ensures clients == {} && channels == map[]
    {
      clients, channels := {}, map[];
    }

    /** Hub.Register, for a client that was just allocated. */
    method Register(c: Client)
      requires c !in channels
      modifies this
      ensures clients == old(clients) + {c} && channels == old(channels)[c := NewClient()]
    {
      channels := channels[c := NewClient()];
      clients := clients + {c};
    }

    /** Hub.unregister, called by one of the client's pumps, which then ends. */
    method Unregister(c: Client, side: Side)
      requires c in channels
      modifies this
      ensures clients == old(clients) - {c}
      ensures channels == old(channels)[c := Ended(old(channels)[c], c in old(clients), side)]
    {
      var x := channels[c];
      if c in clients {
        clients := clients - {c};
        x := x.(closed := true, closes := x.closes + 1);
      }
      channels := channels[c := if side == Writing then x.(writer := Gone) else x.(reader := Gone)];
    }

    /** Hub.BroadcastEvent: the loop visits the clients in an arbitrary order. */
    method BroadcastEvent(b: nat, data: Data)
      requires forall c :: c in clients ==> c in channels && !channels[c].closed
      modifies this`channels
      ensures channels == OfferAll(old(channels), clients, b, data)
    {
      var pending := clients;
      while pending != {}
        invariant pending <= clients && channels.Keys == old(channels.Keys)
        invariant forall c :: c in channels ==>
                    channels[c] ==
                      if c in clients && c !in pending then Offered(old(channels)[c], b, data) else old(channels)[c]
        decreases |pending|
      {
        var c :| c in pending;
        pending := pending - {c};
        var x := channels[c];
        if |x.queue| < CLIENT_BUFFER_SIZE {
          x := x.(queue := x.queue + [data], offers := x.offers + [Offer(b, data, true, |x.queue|)]);
        } else {
          x := x.(offers := x.offers + [Offer(b, data, false, |x.queue|)]);
        }
        channels := channels[c := x];
      }
    }
  }

  function OfferAll(channels: map<Client, ClientState>, visited: set<Client>, b: nat, data: Data)
    : map<Client, ClientState>
  {
    map c | c in channels :: if c in visited then Offered(channels[c], b, data) else channels[c]
  }

  // --------------------------------------------- the methods as runs of steps

  /** The state after the steps of `run`, or None if one of them is not enabled. */
  function Perform(s: State, run: seq<Action>): Option<State>
    decreases |run|
  {
    if run == [] then Some(s)
    else if Enabled(s, run[0]) then Perform(Do(s, run[0]), run[1..])
    else None
  }

  /** Performing more steps after a run of the system is a run of the system. */
  lemma {:induction false} PerformContinues(run: seq<Action>, more: seq<Action>)
    requires After(run).Some?
    ensures After(run + more) == Perform(After(run).value, more)
    decreases |more|
  {
    if more == [] {
      assert run + more == run;
    } else {
      var next := run + [more[0]];
      assert next[..|run|] == run;
      assert run + more == next + more[1..];
      if Enabled(After(run).value, more[0]) {
        PerformContinues(next, more[1..]);
      } else {
        NotEnabledEnds(next, more[1..]);
      }
    }
  }

  lemma {:induction false} NotEnabledEnds(run: seq<Action>, more: seq<Action>)
    requires After(run).None?
    ensures After(run + more).None?
    decreases |more|
  {
    if more == [] {
      assert run + more == run;
    } else {
      assert (run + more)[..|run + more| - 1] == run + more[..|more| - 1];
      NotEnabledEnds(run, more[..|more| - 1]);
    }
  }

  lemma PerformFirst(s: State, a: Action, more: seq<Action>)
    requires Enabled(s, a)
    ensures Perform(s, [a] + more) == Perform(Do(s, a), more)
  {
    assert ([a] + more)[1..] == more;
  }

  function UnregisterSteps(c: Client, side: Side, registered: bool): seq<Action> {
    [Acquire(c, side)] + ([Delete] + (if registered then [Close] + [Release] else [Release]))
  }

  /** An unregister call is a run of the system. */
  lemma UnregisterIsRun(s: State, c: Client, side: Side)
    requires Inv(s) && s.lock.Free? && NoReaders(s) && c in s.known && PumpOf(s.known[c], side).Unregistering?
    ensures Perform(s, UnregisterSteps(c, side, c in s.clients)) ==
              Some(s.(clients := s.clients - {c}, known := s.known[c := Ended(s.known[c], c in s.clients, side)]))
  {
    assert c in s.clients ==> !s.known[c].closed by {
      assert GoodClient(s, c);
    }
    UnregisterPerforms(s, c, side);
  }

  lemma UnregisterPerforms(s: State, c: Client, side: Side)
    requires !s.panicked && s.lock.Free? && NoReaders(s) && c in s.known && PumpOf(s.known[c], side).Unregistering?
    requires c in s.clients ==> !s.known[c].closed
    ensures Perform(s, UnregisterSteps(c, side, c in s.clients)) ==
              Some(s.(clients := s.clients - {c}, known := s.known[c := Ended(s.known[c], c in s.clients, side)]))
  {
    var close := if c in s.clients then [Close] + [Release] else [Release];
    var s1 := Do(s, Acquire(c, side));
    var s2 := Do(s1, Delete);
    PerformFirst(s, Acquire(c, side), [Delete] + close);
    PerformFirst(s1, Delete, close);
    if c in s.clients {
      PerformFirst(s2, Close, [Release]);
      ReleasedState(s, c, side, Do(s2, Close));
    } else {
      assert s.clients - {c} == s.clients;
      ReleasedState(s, c, side, s2);
    }
  }

  lemma ReleasedState(s: State, c: Client, side: Side, s3: State)
    requires c in s.known && c in s3.known && s.lock.Free? && !s.panicked
    requires s3 == s.(lock := Held(c, side, Releasing), clients := s.clients - {c}, known := s3.known)
    requires var x := s.known[c];
             s3.known == if c in s.clients then s.known[c := x.(closed := true, closes := x.closes + 1)] else s.known
    ensures Perform(s3, [Release]) ==
              Some(s.(clients := s.clients - {c}, known := s.known[c := Ended(s.known[c], c in s.clients, side)]))
  {
    var t := Do(s3, Release);
    assert t.known == s.known[c := Ended(s.known[c], c in s.clients, side)];
  }

  function Sends(b: nat, order: seq<Client>): (r: seq<Action>)
    ensures |r| == |order|
  {
    seq(|order|, i requires 0 <= i < |order| => Send(b, order[i]))
  }

  /** The state once broadcast `b` has visited all its pending clients. */
  function Visited(s: State, b: nat): State
    requires b in s.casts
  {
    var cast := s.casts[b];
    s.(known := OfferAll(s.known, cast.pending, b, cast.data), casts := s.casts[b := cast.(pending := {})])
  }

  /** Every client the broadcast has yet to visit has an open channel. */
  ghost predicate CanSend(s: State, b: nat) {
    && !s.panicked && b in s.casts
    && forall c :: c in s.casts[b].pending ==> c in s.known && !s.known[c].closed
  }

  lemma BroadcastCanSend(s: State, b: nat)
    requires Inv(s) && b in s.casts
    ensures CanSend(s, b)
  {
    forall c | c in s.casts[b].pending ensures c in s.known && !s.known[c].closed {
      assert GoodClient(s, c);
    }
  }

  /** The broadcast loop, in whatever order it visits the clients, leads to the same state. */
  lemma {:induction false} SendsAreRun(s: State, b: nat, order: seq<Client>)
    requires CanSend(s, b) && NoRepeats(order) && forall c :: c in order <==> c in s.casts[b].pending
    ensures Perform(s, Sends(b, order)) == Some(Visited(s, b))
    decreases |order|
  {
    if order == [] {
      NothingToVisit(s, b);
    } else {
      var c := order[0];
      assert c in order;
      SendIsStep(s, b, c);
      TailOfOrder(order);
      SendsAreRun(Sent(s, b, c), b, order[1..]);
      assert Sends(b, order) == [Send(b, c)] + Sends(b, order[1..]);
      PerformFirst(s, Send(b, c), Sends(b, order[1..]));
      VisitOneFirst(s, b, c);
    }
  }

  lemma NothingToVisit(s: State, b: nat)
    requires b in s.casts && forall c :: c !in s.casts[b].pending
    ensures Visited(s, b) == s
  {
    assert s.casts[b].pending == {};
    assert Visited(s, b).known == s.known;
    assert Visited(s, b).casts == s.casts;
  }

  lemma TailOfOrder(order: seq<Client>)
    requires order != [] && NoRepeats(order)
    ensures NoRepeats(order[1..]) && forall d :: d in order[1..] <==> d in order && d != order[0]
  {
    assert order == [order[0]] + order[1..];
  }

  /** The state after broadcast `b` offered its message to the open channel of `c`. */
  function Sent(s: State, b: nat, c: Client): State
    requires b in s.casts && c in s.known
  {
    var cast := s.casts[b];
    s.(casts := s.casts[b := cast.(pending := cast.pending - {c})],
       known := s.known[c := Offered(s.known[c], b, cast.data)])
  }

  lemma SendIsStep(s: State, b: nat, c: Client)
    requires CanSend(s, b) && c in s.casts[b].pending
    ensures Enabled(s, Send(b, c)) && Do(s, Send(b, c)) == Sent(s, b, c) && CanSend(Sent(s, b, c), b)
  {
  }

  lemma VisitOneFirst(s: State, b: nat, c: Client)
    requires b in s.casts && c in s.casts[b].pending && c in s.known
    ensures Visited(Sent(s, b, c), b) == Visited(s, b)
  {
    var t := Sent(s, b, c);
    assert Visited(t, b).known == Visited(s, b).known;
    assert Visited(t, b).casts == Visited(s, b).casts;
  }

  lemma {:induction false} PerformBoth(s: State, first: seq<Action>, more: seq<Action>)
    requires Perform(s, first).Some?
    ensures Perform(s, first + more) == Perform(Perform(s, first).value, more)
    decreases |first|
  {
    if first == [] {
      assert first + more == more;
    } else {
      assert (first + more)[1..] == first[1..] + more;
      PerformBoth(Do(s, first[0]), first[1..], more);
    }
  }

  function BroadcastSteps(b: nat, data: Data, order: seq<Client>): seq<Action> {
    [Begin(b, data)] + (Sends(b, order) + [End(b)])
  }

  /** A broadcast is a run of the system with the effect of BroadcastEvent, whatever the order in
      which its loop visits the registered clients. */
  lemma BroadcastIsRun(s: State, b: nat, data: Data, order: seq<Client>)
    requires Inv(s) && s.lock.Free? && b !in s.casts
    requires NoRepeats(order) && forall c :: c in order <==> c in s.clients
    ensures Perform(s, BroadcastSteps(b, data, order)) ==
              Some(s.(known := OfferAll(s.known, s.clients, b, data),
                      casts := s.casts[b := Cast(data, s.clients, {}, true)]))
  {
    var t := Do(s, Begin(b, data));
    StepKeepsInv(s, Begin(b, data));
    BroadcastCanSend(t, b);
    SendsAreRun(t, b, order);
    PerformFirst(s, Begin(b, data), Sends(b, order) + [End(b)]);
    PerformBoth(t, Sends(b, order), [End(b)]);
    EndAfterVisits(s, b, data);
  }

  lemma EndAfterVisits(s: State, b: nat, data: Data)
    requires !s.panicked && s.lock.Free? && b !in s.casts
    ensures Perform(Visited(Do(s, Begin(b, data)), b), [End(b)]) ==
              Some(s.(known := OfferAll(s.known, s.clients, b, data),
                      casts := s.casts[b := Cast(data, s.clients, {}, true)]))
  {
    var v := Visited(Do(s, Begin(b, data)), b);
    assert v.casts == s.casts[b := Cast(data, s.clients, {}, false)];
    assert Do(v, End(b)).casts == s.casts[b := Cast(data, s.clients, {}, true)];
  }
}
